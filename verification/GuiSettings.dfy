/** The settings kept for the user interface and their file (core/gui_settings.cpp). */
module GuiSettingsStore {
  import opened Options
  import opened Tlvs

  const GST_NAME := 0
  const GST_VALUE := 1

  datatype Setting = Setting(name: seq<Byte>, data: seq<Byte>)

  type Values = map<seq<Byte>, seq<Byte>>

  // ----- The file -----

  function EncodeSetting(s: Setting): seq<Byte> {
    Pack([Tlv(GST_NAME, s.name), Tlv(GST_VALUE, s.data)])
  }

  /** The items of a file: numbered from `counter + 1`. */
  function Items(list: seq<Setting>, counter: nat): seq<Tlv> {
    if list == [] then []
    else [Tlv(counter + 1, EncodeSetting(list[0]))] + Items(list[1..], counter + 1)
  }

  function EncodeFile(list: seq<Setting>): seq<Byte> { Pack(Items(list, 0)) }

  datatype Loaded = Loaded(values: Values, ok: bool)

  /** Each item read is stored at once; the first malformed one ends the load. */
  function Store(values: Values, items: seq<Tlv>): Loaded
    decreases |items|
  {
    if items == [] then Loaded(values, true)
    else
      var u := Unpack(items[0].value);
      if !u.ok then Loaded(values, false)
      else
        var name, data := Item(u.items, GST_NAME), Item(u.items, GST_VALUE);
        if name.None? || data.None? then Loaded(values, false)
        else Store(values[name.value := data.value], items[1..])
  }

  function Unserialize(values: Values, file: seq<Byte>): Loaded {
    if file == [] then Loaded(values, false)
    else
      var u := Unpack(file);
      if !u.ok then Loaded(values, false) else Store(values, u.items)
  }

  // ----- Round trip -----

  predicate SettingFits(s: Setting) { |s.name| + |s.data| + 16 < U32 }

  predicate ListFits(list: seq<Setting>) {
    |list| < U32 / 2 && forall i :: 0 <= i < |list| ==> SettingFits(list[i])
  }

  /** The map with each setting stored in turn. */
  function Stored(values: Values, list: seq<Setting>): Values
    decreases |list|
  {
    if list == [] then values else Stored(values[list[0].name := list[0].data], list[1..])
  }

  /** A listing names every entry of the map once, in some order. */
  predicate IsListing(list: seq<Setting>, m: Values) {
    && (forall i, j :: 0 <= i < j < |list| ==> list[i].name != list[j].name)
    && NamesOf(list) == m.Keys
    && (forall i :: 0 <= i < |list| && list[i].name in m ==> m[list[i].name] == list[i].data)
  }

  function NamesOf(list: seq<Setting>): set<seq<Byte>> { set i | 0 <= i < |list| :: list[i].name }

  lemma NamesSnoc(list: seq<Setting>, s: Setting)
    ensures NamesOf(list + [s]) == NamesOf(list) + {s.name}
    ensures forall i :: 0 <= i < |list| ==> list[i].name in NamesOf(list)
  {
    var r := list + [s];
    assert r[|list|] == s && forall i :: 0 <= i < |list| ==> r[i] == list[i];
  }

  lemma SettingRoundTrip(s: Setting)
    requires SettingFits(s)
    ensures var b := EncodeSetting(s);
      && |b| < U32 && Unpack(b).ok
      && Item(Unpack(b).items, GST_NAME) == Some(s.name) && Item(Unpack(b).items, GST_VALUE) == Some(s.data)
  {
    hide Unpack, Bytes;
    var ts := [Tlv(GST_NAME, s.name), Tlv(GST_VALUE, s.data)];
    UnpackPack(ts);
    assert ts[1..] == [Tlv(GST_VALUE, s.data)] && ts[1..][1..] == [];
    assert |Encode(ts[0])| == 8 + |s.name| && |Encode(ts[1])| == 8 + |s.data|;
    assert Pack(ts[1..]) == Encode(ts[1]) + Pack([]);
    assert Pack(ts) == Encode(ts[0]) + Pack(ts[1..]);
  }

  lemma {:induction false} ItemsRoundTrip(values: Values, list: seq<Setting>, counter: nat)
    requires counter + |list| < U32 && forall i :: 0 <= i < |list| ==> SettingFits(list[i])
    ensures AllFit(Items(list, counter)) && |Items(list, counter)| == |list|
    ensures Store(values, Items(list, counter)) == Loaded(Stored(values, list), true)
    decreases |list|
  {
    hide EncodeSetting, Unpack, Item;
    if list == [] {
    } else {
      SettingRoundTrip(list[0]);
      var values' := values[list[0].name := list[0].data];
      ItemsRoundTrip(values', list[1..], counter + 1);
      assert Items(list, counter)[1..] == Items(list[1..], counter + 1);
    }
  }

  /** Reading a written file stores every setting over what was there, and succeeds
      exactly when there was any: the file of no settings is empty and is refused. */
  lemma FileRoundTrip(values: Values, list: seq<Setting>)
    requires ListFits(list)
    ensures Unserialize(values, EncodeFile(list)) == Loaded(Stored(values, list), list != [])
  {
    hide Store, Stored, Items, Pack, Unpack, EncodeSetting;
    ItemsRoundTrip(values, list, 0);
    UnpackPack(Items(list, 0));
    PackNothing(Items(list, 0));
    NothingStored(values);
  }

  lemma PackNothing(ts: seq<Tlv>)
    ensures Pack(ts) == [] <==> ts == []
  {
    if ts != [] {
      assert |Encode(ts[0])| >= 8;
    }
  }

  lemma NothingStored(values: Values)
    ensures Stored(values, []) == values
  {
  }

  lemma {:induction false} StoredSnoc(values: Values, list: seq<Setting>, s: Setting)
    ensures Stored(values, list + [s]) == Stored(values, list)[s.name := s.data]
    decreases |list|
  {
    if list == [] {
      assert (list + [s])[1..] == [];
    } else {
      assert (list + [s])[1..] == list[1..] + [s];
      StoredSnoc(values[list[0].name := list[0].data], list[1..], s);
    }
  }

  lemma {:induction false} StoredLookup(values: Values, list: seq<Setting>, n: seq<Byte>)
    requires forall i, j :: 0 <= i < j < |list| ==> list[i].name != list[j].name
    ensures var r := Stored(values, list);
      && (forall i :: 0 <= i < |list| && list[i].name == n ==> n in r && r[n] == list[i].data)
      && ((forall i :: 0 <= i < |list| ==> list[i].name != n) ==>
           (n in r <==> n in values) && (n in values ==> r[n] == values[n]))
    decreases |list|
  {
    if list == [] {
    } else {
      StoredLookup(values[list[0].name := list[0].data], list[1..], n);
    }
  }

  lemma ListingStored(list: seq<Setting>, m: Values)
    requires IsListing(list, m)
    ensures Stored(map[], list) == m
  {
    var r := Stored(map[], list);
    forall n: seq<Byte>
      ensures (n in r <==> n in m) && (n in m ==> r[n] == m[n])
    {
      StoredLookup(map[], list, n);
      if n in m {
        var i :| 0 <= i < |list| && list[i].name == n;
      } else {
        assert forall i :: 0 <= i < |list| ==> list[i].name in NamesOf(list);
      }
    }
    assert r.Keys == m.Keys;
  }

  /** Writing a map and reading it into an empty one gives the same map, whatever
      order the entries were written in. */
  lemma MapRoundTrip(list: seq<Setting>, m: Values)
    requires ListFits(list) && IsListing(list, m)
    ensures Unserialize(map[], EncodeFile(list)) == Loaded(m, m != map[])
  {
    hide Unserialize, EncodeFile, Stored;
    FileRoundTrip(map[], list);
    ListingStored(list, m);
    assert list != [] ==> list[0].name in NamesOf(list);
    if m != map[] {
      var n :| n in m.Keys;
      assert n in NamesOf(list);
    }
  }

  // ----- The settings object -----

  predicate ValuesFit(m: Values) {
    |m| < U32 / 2 && forall n :: n in m ==> SettingFits(Setting(n, m[n]))
  }

  lemma ListingFits(list: seq<Setting>, m: Values)
    requires IsListing(list, m) && |list| == |m| && ValuesFit(m)
    ensures ListFits(list)
  {
    forall i | 0 <= i < |list|
      ensures SettingFits(list[i])
    {
      assert list[i].name in NamesOf(list);
      assert list[i] == Setting(list[i].name, m[list[i].name]);
    }
  }

  class GuiSettings {
    var values: Values
    var changed: bool
    /** What the file holds: the last snapshot handed to the writer, or what was loaded. */
    ghost var snapshot: seq<Byte>

    /** Unchanged settings are exactly those that the file decodes to. */
    ghost predicate Valid()
      reads this
    {
      !changed ==> Unserialize(map[], snapshot).values == values
    }

    constructor (file: seq<Byte>)
      ensures values == map[] && !changed && snapshot == file
    {
      values, changed, snapshot := map[], false, file;
    }

    /** Loads the file, or the exported settings when there is no file. */
    method Load(file: Option<seq<Byte>>, exported: Option<seq<Setting>>) returns (ok: bool)
      requires values == map[] && !changed && (file.Some? ==> file.value == snapshot)
      modifies this
      ensures snapshot == old(snapshot)
      ensures file.Some? ==> Loaded(values, ok) == Unserialize(map[], file.value) && !changed
      ensures file.None? ==> ok == exported.Some? && changed == ok && (ok ==> values == Stored(map[], exported.value))
      ensures ok ==> Valid()
    {
      if file.Some? {
        ok := UnserializeFile(file.value);
        return;
      }
      if exported.Some? {
        StoreAll(exported.value);
        changed := true;
        return true;
      }
      return false;
    }

    method StoreAll(list: seq<Setting>)
      modifies `values, `changed
      ensures values == Stored(old(values), list) && changed == (old(changed) || list != [])
    {
      for i := 0 to |list|
        invariant values == Stored(old(values), list[..i]) && changed == (old(changed) || i > 0)
      {
        StoredSnoc(old(values), list[..i], list[i]);
        assert list[..i + 1] == list[..i] + [list[i]];
        SetValue(list[i].name, list[i].data);
      }
      assert list[..|list|] == list;
    }

    method UnserializeFile(file: seq<Byte>) returns (ok: bool)
      modifies `values
      ensures Loaded(values, ok) == Unserialize(old(values), file)
    {
      if file == [] {
        return false;
      }
      var pack := Unpack(file);
      if !pack.ok {
        return false;
      }
      var i := 0;
      assert pack.items[0..] == pack.items;
      while i < |pack.items|
        invariant i <= |pack.items|
        invariant Store(values, pack.items[i..]) == Store(old(values), pack.items)
      {
        var u := Unpack(pack.items[i].value);
        if !u.ok {
          return false;
        }
        var name, data := Item(u.items, GST_NAME), Item(u.items, GST_VALUE);
        if name.None? || data.None? {
          return false;
        }
        assert pack.items[i..][1..] == pack.items[i + 1..];
        values := values[name.value := data.value];
        i := i + 1;
      }
      return true;
    }

    method SetValue(name: seq<Byte>, data: seq<Byte>)
      modifies `values, `changed
      ensures Valid() && values == old(values)[name := data] && changed
    {
      values := values[name := data];
      changed := true;
    }

    method ClearValue(name: seq<Byte>)
      modifies `values, `changed
      ensures values == old(values) - {name} && changed == (old(changed) || name in old(values))
      ensures old(Valid()) ==> Valid()
    {
      if name in values {
        values := values - {name};
        changed := true;
      } else {
        assert values - {name} == values;
      }
    }

    method ClearValues()
      modifies `values, `changed
      ensures Valid() && values == map[] && changed
    {
      values := map[];
      changed := true;
    }

    /** Writes the entries in some order, numbered from one. */
    method Serialize() returns (file: seq<Byte>)
      requires ValuesFit(values)
      ensures Unserialize(map[], file) == Loaded(values, values != map[])
    {
      hide EncodeFile, Items, Unserialize, Pack, NamesOf, EncodeSetting;
      ghost var list: seq<Setting> := [];
      var items: seq<Tlv> := [];
      var counter := 0;
      var left := values.Keys;
      NoItems();
      assert NamesOf(list) == {} by {
        NoNames();
      }
      while left != {}
        invariant left <= values.Keys && |left| + |list| == |values| && counter == |list|
        invariant items == Items(list, 0)
        invariant NamesOf(list) == values.Keys - left
        invariant forall i :: 0 <= i < |list| && list[i].name in values ==> values[list[i].name] == list[i].data
        invariant forall i, j :: 0 <= i < j < |list| ==> list[i].name != list[j].name
        decreases |left|
      {
        var n :| n in left;
        ItemsSnoc(list, 0, Setting(n, values[n]));
        NamesSnoc(list, Setting(n, values[n]));
        counter := counter + 1;
        items := items + [Tlv(counter, EncodeSetting(Setting(n, values[n])))];
        left := left - {n};
        list := list + [Setting(n, values[n])];
      }
      file := Pack(items);
      ListingFits(list, values);
      MapRoundTrip(list, values);
      assert EncodeFile(list) == Pack(Items(list, 0)) by {
        EncodeFileIs(list);
      }
    }

    static lemma EncodeFileIs(list: seq<Setting>)
      ensures EncodeFile(list) == Pack(Items(list, 0))
    {
    }

    static lemma NoNames()
      ensures NamesOf([]) == {}
    {
    }

    static lemma NoItems()
      ensures Items([], 0) == []
    {
    }

    static lemma {:induction false} ItemsSnoc(list: seq<Setting>, counter: nat, s: Setting)
      ensures Items(list + [s], counter) == Items(list, counter) + [Tlv(counter + |list| + 1, EncodeSetting(s))]
      decreases |list|
    {
      hide EncodeSetting;
      if list == [] {
        assert ([] + [s])[1..] == [];
      } else {
        assert (list + [s])[1..] == list[1..] + [s];
        ItemsSnoc(list[1..], counter + 1, s);
      }
    }

    /** Hands a snapshot to the writer when something changed since the last one. */
    method SaveIfNeeded()
      requires Valid() && ValuesFit(values)
      modifies `changed, `snapshot
      ensures Valid() && !changed
      ensures !old(changed) ==> snapshot == old(snapshot)
    {
      if changed {
        changed := false;
        var data := Serialize();
        snapshot := data;
      }
    }
  }
}
