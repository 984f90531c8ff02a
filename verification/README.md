# A verified model of the messenger's core

This project models the parts of an instant messenger's core where the most state meets the most
cases, and proves what they promise.

* **URLs in messages** (`Url*.dfy`, `MessageTokenizer.dfy`). A machine reads a message character by
  character, looks for URLs, compares with fixed URLs on the way and gives the compared characters
  back when a comparison fails. `UrlMachine` is the machine as a function, `UrlParser` the object with
  its fields, loops and mutual recursion, proved against it. `UrlInvariant`, `UrlReplay` and `UrlRuns`
  hold the invariant, the theorem that a failed comparison is invisible and its form over whole texts;
  `UrlHosts`, `UrlEnds` and `UrlSafePositions` say what the end of a text reports, `UrlEmails` which
  e-mail addresses are reported unchecked. `UrlText` is a grammar of URLs as people write them that
  knows nothing of the machine; `UrlReading`, `UrlPaths` and `UrlFound` prove that such URLs are
  reported, and as what, `UrlAddresses` and `UrlMail` the same of single names and e-mail addresses,
  `UrlDropped` what is given up, `UrlFixed` when a fixed URL is recognised, and `UrlSentence` that all
  this holds in the midst of a sentence. The tokenizer
  cuts a message by arithmetic on the parser's buffer; nothing is lost or invented.
* **The archive index** (`MessageHeader.dfy`, `HeaderHistory.dfy`, `Archive*.dfy`). An ordered map of
  headers linked backwards, with patches in between: merging, what a message's headers come to, saving
  and loading, windows, hole search, deletion.
* **Reference-counted collections** (`CollectionHeap.dfy`, `Collections.dfy`). The heap as a graph,
  counts as the number of owners, cascading release, owning pointers.
* **Requests** (`Curl*.dfy`). A priority queue, a capped set of active tasks and results delivered to
  callers, as atomic steps over whole runs, with the handles in use and the code that each caller is
  told; and the lanes of the blocking interface.
* **Services** (`Tlv.dfy`, `GuiSettings.dfy`, `Stat*.dfy`, `NetworkLog.dfy`, `Scheduler.dfy`,
  `PatchVersion.dfy`). Settings and statistics with their files byte by byte, conservation of counted
  traffic, log rotation, timers, version order.

`Counterexamples.dfy` and `UrlAtEnd.dfy` hold concrete inputs for the promises below that fail.

Each object that the program changes in place is a class whose methods are proved equal to functions
on values; the lemmas are about those functions. Where a promise turned out not to hold for every
input, the code is kept and the exact condition is proved:

* Saving and loading the archive rebuilds a header exactly when it agrees with its modifications
  (`MessageHeaders.Stable`): a whole header that arrives after a modification is not reproduced.
* A deletion or a trim keeps a hole-free index hole-free only under the conditions of
  `HoleFreeAfterDelete` and `HoleFreeAfterTrim`.
* A task whose addition to libcurl fails stays in the map of active tasks. It gets a second result,
  which for a task with a promise is a `set_value` that throws, and its handle is cleaned up a second
  time; a task whose context is gone when it is finished keeps its handle (`CancelHandles`).
* `raise_task` moves a task backwards, since priorities are fixed.
* At the end of a text inside a fixed URL the report is not always that of a parser without fixed URLs
  (`EndOfRun`): a URL is missed before the safe position, and past it one can be made up. The built-in
  fixed URLs make up none when the host of shared files begins with a letter of its own, as the default
  one does (`SafeEndAlike`, `BuiltInsTrusty`); another host can (`SiteMadeUpAtEnd`).
* The ids of shared files need one character more at the end of a text (`SharedFileLink`).
* The domain of an e-mail address is not checked at the end of a text, at a question mark and at a space
  behind a dot (`EmailUncheckedIff`, `EmailUncheckedAtEndIff`).
* A URL that ends in a port, or inside the beginning of a file extension such as `.p`, is dropped before
  a blank and reported at the end of a text (`DroppedAtBlank`, `FoundAtTextEnd`). So is an address of four
  numbers with a full stop behind it (`FoundBehindStop`).
* A name behind a scheme that begins with the letter w loses up to four characters to the search for
  `www.`; if nothing is left of it, it is no URL (`OneNameFound`).
* An e-mail address whose name is w, ww, www, https, ftps, ittps or mttps is told as a site
  (`UrlMail.TakenForPrefix`).
* Storing again the only reference that a slot holds touches freed memory.
* The file of an empty settings map is empty, and an empty file is refused.

`dafny verify dfyconfig.toml` checks the project.

## Model

| member | source | states |
|---|---|---|
| UrlParsing.UrlParser.constructor | common.shared/url_parser/url_parser.cpp:182-197 | a new parser holds the built-in fixed URLs of its build and stands at the start of the machine |
| UrlParsing.UrlParser.AddFixedUrls | common.shared/url_parser/url_parser.cpp:280-290 | exactly the non-empty items are appended, and the set of first characters stays the set of first characters of all items |
| UrlParsing.UrlParser.Reset | common.shared/url_parser/url_parser.cpp:759-793 | everything but the fixed URLs and the running comparison returns to the fresh state |
| UrlParsing.UrlParser.Process | common.shared/url_parser/url_parser.cpp:307-753 | one character changes the object's fields exactly as the machine's step says, through the mutual recursion of reading and giving back; the recursion terminates |
| UrlParsing.UrlParser.ReadHostPart | common.shared/url_parser/url_parser.cpp:479-543 | in a password, at a dot, a colon, an at sign or a port of the host the character has the outcome the machine says, with host segments and IPv4 segments counted |
| UrlParsing.UrlParser.ReadPath | common.shared/url_parser/url_parser.cpp:527-580 | the same for paths; and for queries |
| UrlParsing.UrlParser.ReadExtension | common.shared/url_parser/url_parser.cpp:581-735 | the same for the letters of an image or video extension |
| UrlParsing.UrlParser.IsValidTopLevelDomain | common.shared/url_parser/url_parser.cpp:1168-1180 | a domain is accepted when it is not empty and has a protocol, is an IPv4 address or ends in a known top-level domain |
| UrlParsing.UrlParser.TrimTail | common.shared/url_parser/url_parser.cpp:958-971 | the buffer loses exactly its trailing punctuation, which is counted, and never ends in punctuation afterwards |
| UrlParsing.UrlParser.SaveUrl | common.shared/url_parser/url_parser.cpp:795-1018 | a save answers, trims and reports as the machine's save does |
| UrlParsing.UrlParser.CompareFixedUrls | common.shared/url_parser/url_parser.cpp:1233-1271 | one scan over the fixed URLs updates the match flags, the safe position and the text compared so far, and tells a partial match, a complete one and none apart |
| UrlParsing.UrlParser.StartFixedUrlsCompare | common.shared/url_parser/url_parser.cpp:1273-1291 | a comparison starts with all matches cleared and the first character scanned |
| UrlParsing.UrlParser.Fallback | common.shared/url_parser/url_parser.cpp:1050-1060 | taking the compared text back and reading it again ends exactly where reading the same characters from the fallback state without fixed URLs ends, followed by the last character |
| UrlParsing.UrlParser.Finish | common.shared/url_parser/url_parser.cpp:250-253 | the end of a text saves what was read |
| UrlReplay.StepInv | common.shared/url_parser/url_parser.cpp:307-753 | the machine's invariant survives every character: what a comparison has covered is the end of the buffer and matches some fixed URL, and behind the host the domain was accepted |
| UrlReplay.ReplayKeepsAll | common.shared/url_parser/url_parser.cpp:1050-1060 | read without fixed URLs, the beginning of a fixed URL neither restarts the parser nor reports anything: every character is kept |
| UrlReplay.FailedComparison | common.shared/url_parser/url_parser.cpp:447-455 | a failed comparison is one plain step from where the plain parser stands after the compared characters; buffer, report and tail are untouched before it |
| UrlReplay.StepEffect | common.shared/url_parser/url_parser.cpp:736-753 | one character is kept, empties the buffer, or reports a URL that is the buffer without its tail; a reported site, ftp, image or video URL has an accepted domain |
| UrlReplay.FinishedDomainAccepted | common.shared/url_parser/url_parser.cpp:976-1014 | the same for the domain at the end of a text, outside an unfinished fixed URL, although images and videos are never checked when saved |
| UrlInvariant.SaveSplits | common.shared/url_parser/url_parser.cpp:955-1018 | a successful save keeps every field but buffer, tail and report, cuts the tail off the buffer and reports the rest |
| UrlInvariant.SavedDomainAccepted | common.shared/url_parser/url_parser.cpp:976-1015 | whatever kind of host URL is saved outside a comparison, its domain was accepted |
| UrlRuns.UnmatchedRun | common.shared/url_parser/url_parser.cpp:1050-1060 | over every text in which no fixed URL is completed, the parser is exactly where a parser without fixed URLs is, or its comparison covers precisely the difference |
| UrlHosts.SavedIffSavable | common.shared/url_parser/url_parser.cpp:795-1018 | read without fixed URLs, the beginning of a fixed URL is saved exactly when a protocol stood before it, or it has a second label and its last one is accepted by the list or as the last of four numbers: told from the text and from what stood before it |
| UrlHosts.FirstNameOf | common.shared/url_parser/url_parser.cpp:312-446 | the part of a first label that counts as a name is an end of it, and all of it unless its first letter was tried as a protocol or as www |
| UrlEnds.EndOfRun | common.shared/url_parser/url_parser.cpp:250-253 | at the end of such a text the report equals the plain parser's exactly when no comparison runs, or the comparison is before its safe position and the compared text is no URL by itself, or it is past it and the compared text is one and does not end in a dot |
| UrlSafePositions.SafeEndAlike | common.shared/url_parser/url_parser.cpp:447-455 | with fixed URLs whose safe position ends their host, and which part from each other more than one character before it or behind the host, a comparison past its safe position reports at the end of every text exactly what the plain parser reports |
| UrlSafePositions.BuiltInsTrusty | common.shared/url_parser/url_parser.cpp:1202-1224 | the built-in fixed URLs of both builds are such, for every host of shared files that begins with another letter than the others, and for the two built-in ones |
| UrlEmails.EmailUncheckedIff | common.shared/url_parser/url_parser.cpp:494-521 | in every reachable state and for every character: an e-mail address with an unaccepted domain is reported exactly at a question mark in its last label, or at a space behind its last dot with that label counted |
| UrlEmails.EmailUncheckedAtEndIff | common.shared/url_parser/url_parser.cpp:976-979 | and at the end of a text exactly when the parser is in a later label, behind a dot or an at sign, or in a port, of an address of more than one label whose domain is not accepted |
| UrlRuns.FilesharingIdLengths | common.shared/url_parser/url_parser.cpp:469-474 | a shared-file id is accepted from 32 characters on before a space, but only from 33 on at the end of a text |
| UrlShapes.HostItemWellShaped | common.shared/url_parser/url_parser.cpp:1202-1224 | every fixed URL made of a host of two or more labels, the last one accepted and the first one not w, ww or www, and of a plain path has the shape the results above ask for |
| UrlShapes.BuiltInsWellShaped | common.shared/url_parser/url_parser.cpp:182-197 | so have the built-in fixed URLs of every build, whatever such host the shared files are kept on |
| UrlAtEnd.SiteMissedAtEnd | common.shared/url_parser/url_parser.cpp:250-253 | a concrete text: at the end of icq.co the parser with the fixed URL reports nothing, the one without reports the site |
| UrlAtEnd.SiteMadeUpAtEnd | common.shared/url_parser/url_parser.cpp:1246-1251 | a concrete text: with shared files on icq.ru and co no top-level domain, the end of icq.co reports a site that a parser without fixed URLs does not see, because the safe position of icq.ru outlives its mismatch |
| UrlAtEnd.SharedFileLink | common.shared/url_parser/url_parser.cpp:470-475 | every link icq.com/files/ with an id of id characters, from its first character on: reported before a space from 32 characters of the id on, at the end of the text from 33 on |
| UrlAtEnd.EmailReported | common.shared/url_parser/url_parser.cpp:494-521 | a concrete address, a@b.zz with zz no top-level domain: dropped before a space, reported at the end of the text, before a question mark and before a dot and a space |
| UrlPaths.CharactersAgree | common.shared/url_parser/url_parser.cpp:1084-1161 | the character classes of the machine are those of the grammar of written URLs, character by character |
| UrlPaths.Trie | common.shared/url_parser/url_parser.cpp:581-735 | each state inside an extension stands for the letters read, and one more letter goes on, completes or leaves exactly as the names of the fifteen extensions do |
| UrlPaths.PathRead | common.shared/url_parser/url_parser.cpp:527-757 | every path is kept as a whole, whatever it holds, and its extension and its ending are those that its text tells |
| UrlReading.SchemeRead | common.shared/url_parser/url_parser.cpp:312-468 | each scheme of the build, in any case of letters, is read to its slashes with its own protocol |
| UrlReading.LoginRead | common.shared/url_parser/url_parser.cpp:481-543 | a user name behind a scheme, with or without a password, is kept and leads to the host |
| UrlsFound.FoundAtEnd | common.shared/url_parser/url_parser.cpp:307-757 | completeness: every URL of the grammar (scheme or none, login, www, labels with an accepted host, port, path or query) read from the start is reported at every character that ends it: original is the text without its trailing punctuation, protocol the one written, url the original with the web scheme in front when none was written, kind and extension those of its last extension |
| UrlsFound.FoundAtTextEnd | common.shared/url_parser/url_parser.cpp:795-1018 | the same at the end of the text, for every such URL |
| UrlsFound.DroppedOtherwise | common.shared/url_parser/url_parser.cpp:307-757 | and at a character with which it neither ends nor goes on it is dropped: the parser starts over |
| UrlsFound.DroppedAtBlank | common.shared/url_parser/url_parser.cpp:533-539 | such is a blank behind a port, and behind the unfinished beginning of an extension |
| UrlAddresses.FoundBehindStop | common.shared/url_parser/url_parser.cpp:514-521 | a host, a full stop and a blank: the host is reported without the full stop, but a host of four numbers that no list and no scheme vouches for is dropped |
| UrlAddresses.FoundAtLastStop | common.shared/url_parser/url_parser.cpp:795-1018 | at the end of the text it is reported in any case |
| UrlAddresses.OneNameFound | common.shared/url_parser/url_parser.cpp:426-493 | one name behind a scheme, with slashes in it and with question marks for the schemes of the messengers, is reported before the first character that no URL has exactly when more of it is left than letters taken for www, slashes and question marks |
| UrlAddresses.OneNameAtEnd | common.shared/url_parser/url_parser.cpp:795-1018 | the same at the end of the text |
| UrlMail.AddressFound | common.shared/url_parser/url_parser.cpp:312-521 | every address of the grammar is reported as an e-mail before a character that ends it when its domain is known, and dropped when it is not; a name taken for www or a secure scheme makes it a site |
| UrlMail.AddressAtEnd | common.shared/url_parser/url_parser.cpp:976-979 | at the end of the text every address is reported, whatever its domain, unless it is taken for a site |
| UrlMail.AddressBehindStop | common.shared/url_parser/url_parser.cpp:514-521 | so is every address behind which a full stop and a blank stand |
| UrlMail.AddressElsewhere | common.shared/url_parser/url_parser.cpp:494-507 | a question mark ends an address, whatever its domain; a second sign, a colon, a slash and every other character that neither goes on with it nor ends it give it up |
| UrlMail.SecondSign | common.shared/url_parser/url_parser.cpp:508-513 | a second sign behind the first label gives an address up with the next character |
| UrlMail.WordDropped | common.shared/url_parser/url_parser.cpp:325-493 | a bare word that is not taken for a prefix is dropped at a slash, a question mark and every character no URL has |
| UrlMail.WordSilent | common.shared/url_parser/url_parser.cpp:795-863 | and reports nothing at the end of the text |
| UrlsDropped.SchemeNeedsSlashes | common.shared/url_parser/url_parser.cpp:462-469 | a scheme and its colon are given up unless two slashes follow |
| UrlsDropped.PrefixNeedsName | common.shared/url_parser/url_parser.cpp:426-480 | a scheme with its slashes, also with www behind it, is given up at a character that no URL has |
| UrlsDropped.StopNeedsLabel | common.shared/url_parser/url_parser.cpp:514-521 | a host and a full stop are given up at anything but a label or a blank |
| UrlsDropped.LoginNeedsHost | common.shared/url_parser/url_parser.cpp:481-543 | an unfinished login is given up at a character that no URL has |
| UrlFixed.FixedUrlRead | common.shared/url_parser/url_parser.cpp:1233-1291 | read from where a comparison starts, a fixed URL, in any case of letters, is recognised with its last character exactly when no longer one agrees with it up to there, and never earlier; until then it is still compared |
| UrlFixed.SafeIsSmallest | common.shared/url_parser/url_parser.cpp:1241-1264 | the safe position after a scan is the smallest among the fixed URLs that match and the first one considered, which counts even if it does not match |
| UrlFixed.LinkFound | common.shared/url_parser/url_parser.cpp:470-475 | for any well-shaped set of fixed URLs: a recognised link is reported before a blank as a profile with everything behind it, or as a shared file exactly when at least 32 id characters follow |
| UrlFixed.LinkFoundAtEnd | common.shared/url_parser/url_parser.cpp:852-856 | at the end of the text the shared file needs 33 |
| UrlFixed.LinkDropped | common.shared/url_parser/url_parser.cpp:470-475 | at any other sign the link is given up |
| UrlSentences.BlankSettles | common.shared/url_parser/url_parser.cpp:307-757 | after every blank, in every reachable state, the parser with its fixed URLs has reported a URL or stands where it started |
| UrlSentences.NothingCompletedIn | common.shared/url_parser/url_parser.cpp:1233-1271 | in a text that no fixed URL is a part of, no comparison completes, and the parser stands where the plain one does |
| UrlSentences.FoundInSentence | common.shared/url_parser/url_parser.cpp:255-278 | whatever a text holds before it, a word behind a blank in which no fixed URL hides gives, among the URLs found, what the parser without fixed URLs reports of that word alone |
| UrlSentences.UrlInSentence | common.shared/url_parser/url_parser.cpp:255-278 | so every URL of the grammar in a sentence is among the URLs found, told as expected |
| UrlSentences.AddressInSentence | common.shared/url_parser/url_parser.cpp:255-278 | every e-mail address in a known domain |
| UrlSentences.OneNameInSentence | common.shared/url_parser/url_parser.cpp:255-278 | and every one name behind a scheme |
| UrlSentences.LinkBehindPrefix | common.shared/url_parser/url_parser.cpp:426-480 | behind a scheme, www or both, a fixed URL is recognised just as at the start, and the protocol is kept |
| MessageTokenizing.MessageTokenizer.constructor | common.shared/message_processing/message_tokenizer.cpp:29-93 | the tokens of a message are those of the specification, and without mentions they spell the message |
| MessageTokenizing.MessageTokenizer.AppendTokens | common.shared/message_processing/message_tokenizer.cpp:41-53 | the text before a URL and the URL are pushed; the subtraction does not underflow; the next piece starts at the URL's tail |
| MessageTokenizing.MessageTokenizer.SkipMention | common.shared/message_processing/message_tokenizer.cpp:58-68 | a mention is skipped up to its first closing bracket, or not at all if there is none |
| MessageTokenizing.MentionSkipped | common.shared/message_processing/message_tokenizer.cpp:58-68 | a position is skipped exactly where an at sign and an opening bracket stand with a closing bracket behind them, and then to the first such bracket |
| MessageTokenizing.NothingLost | common.shared/message_processing/message_tokenizer.cpp:29-93 | for every message without mentions, or with all mentions outside URLs, concatenating texts and original URLs gives the message back |
| MessageTokenizing.TokensSpell | common.shared/message_processing/message_tokenizer.cpp:56-92 | from every reachable point of the loop the remaining tokens spell the rest of the message |
| MessageTokenizing.LinksAreParsedUrls | common.shared/message_processing/message_tokenizer.cpp:56-92 | without mentions the links of a message are exactly the URLs that the URL search finds, in order |
| MessageTokenizing.ParseUrls | common.shared/url_parser/url_parser.cpp:255-278 | the loop returns the URLs of the specification, in order |
| MessageTokenizing.MessageTokenizer.Next | common.shared/message_processing/message_tokenizer.cpp:105-109 | the current token goes, the terminator stays |
| PatchVersions.Trichotomy | common.shared/patch_version.h:62-94 | of two versions exactly one is less or they are equal |
| PatchVersions.Transitive | common.shared/patch_version.h:88-94 | the order is transitive |
| PatchVersions.LessThanIsNumeric | common.shared/patch_version.h:88-94 | on decimal numbers of any length without leading zeros it is the numeric order |
| PatchVersions.PatchVersion.AtLeast | common.shared/patch_version.h:82-85 | `>=` holds exactly for greater and for equal versions |
| MessageHeaders.MergeOk | core/archive/history_message.cpp:271-338 | merging keeps a header's modifications modifications of that message |
| MessageHeaders.MergeIdempotent | core/archive/history_message.cpp:271-338 | merging what a merge produced changes nothing more, unless it is a modification |
| MessageHeaders.MergeSelf | core/archive/history_message.cpp:271-338 | a header merged with itself stays the same exactly when it is not a modification patch |
| MessageHeaders.ReplayFields | core/archive/history_message.cpp:271-338 | what each field is after any number of modifications |
| MessageHeaders.ReloadedIffStable | core/archive/history_message.cpp:271-338 | writing a header with its modifications and merging them again rebuilds it exactly when it agrees with its modifications |
| MessageHeaders.ModifiedIsStable | core/archive/history_message.cpp:271-338 | a message that was only ever modified is rebuilt, whatever its modifications say |
| MessageHeaders.LaterHeaderUnstable | core/archive/history_message.cpp:287-297 | but one whose whole header arrived again after a modification, with another time, is not |
| HeaderHistories.MergedHistory | core/archive/history_message.cpp:271-338 | any headers of one message merged one after the other: offset and size come together from the last whole one with an offset, the previous id from the last one that is whole or names one, a patch only if all are, deleted and modified if any is, updated by the last whole one and what follows it, the newest version, time and the rest from the last |
| HeaderHistories.IndexHistory | core/archive/archive_index.cpp:134-145 | after any insertions the index holds of each message exactly what its headers come to, those it held and then those inserted, and no message of which there was none |
| ArchiveIndexes.ArchiveIndex.InsertHeader | core/archive/archive_index.cpp:147-175 | a new id is inserted in order, a known one merged; the caller's header becomes the merged one unless that is deleted or modified; merges of whole headers are counted, and new outgoing ones of the last three weeks |
| ArchiveIndexes.ArchiveIndex.Update | core/archive/archive_index.cpp:198-219 | the arrived headers are inserted one after the other and what the insertions left of them is appended as one block |
| ArchiveIndexes.ArchiveIndex.SaveAll | core/archive/archive_index.cpp:282-328 | whatever the block size, the blocks together hold each header followed by its modifications, and no block is empty |
| ArchiveIndexes.MergedOrAdded | core/archive/archive_index.cpp:147-175 | every header of a block adds one to the index or one to the merge count; only modifications may add to neither |
| ArchiveIndexes.ArchiveIndex.LoadFromLocal | core/archive/archive_index.cpp:330-383 | the index becomes the file's records with the old memory merged over them, and both counts are those of exactly these insertions; no id in memory is dropped even when a block fails; success only for a sound file read to its end, otherwise the error says which part failed |
| ArchiveIndexes.ArchiveIndex.SerializeFrom | core/archive/archive_index.cpp:62-132 | the list grows in front by the early part and behind by the later part of the window; it fails exactly for a start beyond the last id |
| ArchiveIndexes.ArchiveIndex.InvalidateMessageData | core/archive/archive_index.cpp:667-715 | exactly the newest whole messages before and the first ones from the start on lose their data, everything else stays |
| ArchiveIndexes.ArchiveIndex.DeleteUpTo | core/archive/archive_index.cpp:391-438 | the three branches leave what the specification says, and the file is rewritten whenever something was removed |
| ArchiveIndexes.ArchiveIndex.Optimize | core/archive/archive_index.cpp:594-637 | nothing happens unless the index is too large or too often merged; otherwise it is trimmed and rewritten |
| ArchiveIndexes.ArchiveIndex.GetNextHole | core/archive/archive_index.cpp:463-551 | the newest break of the chain of whole messages within reach is reported, with its depth; the cases of an empty index, a start behind the last id, an unknown start and an index of patches only |
| ArchiveIndexes.ArchiveIndex.SkipPatchesBack | core/archive/archive_index.cpp:16-27 | the cursor stops behind the newest whole message below it |
| ArchiveIndexes.SearchStep | core/archive/archive_index.cpp:510-548 | each iteration either decides the search correctly or moves one whole message down with nothing broken above |
| ArchiveIndexes.SearchPlaced | core/archive/archive_index.cpp:463-508 | a hole search looks at exactly the headers up to the named one, or at all |
| ArchiveChain.HoleTold | core/archive/archive_index.cpp:508-551 | a hole is found exactly when a gap lies among as many of the newest headers as the depth says, the newest one included; what is told are the two sides of the newest gap and the number of headers from it on |
| ArchiveChain.NoHoleIffIntact | core/archive/archive_index.cpp:508-551 | without a depth limit no hole is reported exactly when the chain is unbroken down to a message without a predecessor |
| ArchiveChain.EarlyRunIsShortest | core/archive/archive_index.cpp:86-108 | the early part is the shortest run of whole messages before the start with the requested number not deleted, or all of them |
| ArchiveWindows.WindowAscending | core/archive/archive_index.cpp:62-132 | a window's ids ascend strictly and none is a patch |
| ArchiveWindows.TouchedIffListed | core/archive/archive_index.cpp:667-715 | with nothing deleted, an invalidation touches exactly the headers a window read with the same start and counts lists, the start included |
| ArchiveWindows.WindowPlaced | core/archive/archive_index.cpp:62-108 | a window begins behind exactly the headers older than the named one, and its early part reaches over the start only when asked to and nothing later is |
| ArchiveWindows.LaterAreFirst | core/archive/archive_index.cpp:110-132 | the later part lists exactly the first whole messages from the start on that are not deleted, as many as asked for |
| ArchiveStore.InsertAllOk | core/archive/archive_index.cpp:134-145 | inserting keeps the order, key equal to id, and every id |
| ArchiveStore.SaveLoadRoundTrip | core/archive/archive_index.cpp:282-383 | saving and loading into an empty index rebuilds it exactly when every header agrees with its modifications, however the records are cut into blocks |
| ArchiveStore.EchoesInserted | core/archive/archive_index.cpp:198-219 | the records an update appends have the same effect when read as the headers that arrived |
| ArchiveStore.NothingBehindDamage | core/archive/archive_index.cpp:330-383 | a damaged block still yields the records before the damage, and ends the reading |
| ArchiveLaws.UpdateStaysSynced | core/archive/archive_index.cpp:198-219 | a file that reloads to the index still does after an update |
| ArchiveLaws.LoadOverSelf | core/archive/archive_index.cpp:330-383 | loading a file over the memory it equals changes nothing exactly when no orphan modification is indexed |
| ArchiveLaws.DeleteKeepsGreater | core/archive/archive_index.cpp:391-438 | exactly the ids greater than the given one stay, whether or not it is indexed |
| ArchiveLaws.HoleFreeAfterDelete | core/archive/archive_index.cpp:407-427 | a hole-free index stays hole-free exactly when a whole message is left and either none was deleted, or the given id is an indexed whole message and the first survivor is one too |
| ArchiveLaws.TrimKeepsNewest | core/archive/archive_index.cpp:621-630 | trimming keeps exactly the newest ids within the cap |
| ArchiveLaws.HoleFreeAfterTrim | core/archive/archive_index.cpp:621-630 | and leaves a hole-free index hole-free exactly when a whole message is left and none was trimmed or the first one left is whole |
| Counterexamples.SavedIndexComesBackChanged | core/archive/archive_index.cpp:282-383 | a concrete index that saving and loading changes |
| Counterexamples.DeletingUpToPatchLeavesHole | core/archive/archive_index.cpp:407-427 | a concrete hole-free index in which a deletion leaves a hole |
| Counterexamples.TrimmingBeforePatchLeavesHole | core/archive/archive_index.cpp:621-630 | a concrete hole-free index of one header too many in which a trim leaves a hole |
| CollectionHeap.ReleaseKeepsCounts | corelib/collection.cpp:25-82 | when every count equals the number of owners, releasing touches no freed memory, frees nothing twice and leaves every count right again |
| CollectionHeap.LiveIffReachable | corelib/collection.cpp:25-82 | on an acyclic heap the live objects are exactly those reachable from outside owners |
| CollectionHeap.ReleaseFreesUnreachable | corelib/collection.cpp:25-34 | dropping owners frees exactly the objects that the remaining owners cannot reach any more |
| CollectionHeap.CyclesAreKept | corelib/collection.cpp:25-34 | objects that own each other are never freed, whatever is released |
| CollectionHeap.ReleaseConcat | corelib/collection.cpp:555-582 | releasing one list of slots after the other is releasing them together |
| CollectionHeap.ReplaceCounted | corelib/collection.cpp:443-454 | an object that gives up slots and takes a reference leaves every count right and changes no other object's content |
| CollectionHeap.ReplaceOwned | corelib/collection.cpp:179-185 | with an owner outside the heap for the object and for what it takes, no freed memory is touched |
| CollectionHeap.ReplaceSafeIffReachable | corelib/collection.cpp:179-185 | on an acyclic heap no freed memory is touched exactly when both stay reachable once the given-up slots are empty; then exactly the reachable objects survive |
| CollectionHeap.StoreAgainUnsafeIffOnlyOwner | corelib/collection.cpp:443-454 | storing again what the emptied slot held touches freed memory exactly when that slot was its only owner |
| Collections.Memory.Release | corelib/collection.cpp:25-34 | the recursive release with its destructors does what the work list does |
| Collections.Memory.ReleaseSlots | corelib/collection.cpp:471-477 | the destructor loops release every slot once |
| Collections.Memory.Create | corelib/collection.cpp:418-441 | a new object has one reference, which the caller holds |
| Collections.Memory.SetAs | corelib/collection.cpp:179-185 | the old content is released before the new one is referenced; counts stay right |
| Collections.Memory.SetValue | corelib/collection.cpp:443-454 | the value that had the name is released first, then the new one is stored and referenced; counts stay right |
| Collections.LookupAfterSet | corelib/collection.cpp:443-469 | storing under a name changes the lookup of that name alone, and names stay distinct |
| Collections.Memory.Push | corelib/collection.cpp:578-582 | the value is appended and referenced |
| Collections.PushesInOrder | corelib/collection.cpp:578-582 | values pushed one after the other stand in the array in the order of the pushes, behind what it held, and no other object changes its content |
| Collections.Memory.AssignCopy | corelib/ifptr.h:109-117 | the old target is released and the new one referenced; a pointer copied to itself stays as it is |
| Collections.Memory.AssignMove | corelib/ifptr.h:119-130 | the old target is released and the reference moves over; a pointer moved to itself ends up null |
| Collections.Memory.CopyNew | corelib/ifptr.h:59-64 | a copy holds a reference of its own |
| Collections.Memory.MoveNew | corelib/ifptr.h:66-72 | moving changes no count |
| Collections.Memory.Detach | corelib/ifptr.h:79-87 | the reference passes to the caller |
| Collections.Memory.Reset | corelib/ifptr.h:74-77 | destruction releases the target if it is owned |
| Collections.Memory.SetValueAs | corelib/collection_helper.h:222-227 | create, store, drop: whoever owned what is stored, the new value ends up with the collection as its only owner and nothing else changes hands |
| Counterexamples.SettingOwnContentAgain | corelib/collection.cpp:179-185 | a concrete heap in which setting a value's own content again touches freed memory |
| CurlQueue.InsertSorted | core/curl_multi_handler.cpp:470-491 | a submitted task goes behind everything at least as urgent and before everything less urgent; nothing is lost and the rest keeps its order |
| CurlQueue.InsertInOrder | core/curl_multi_handler.cpp:470-491 | submissions keep the queue first come, first served within a priority |
| CurlQueue.RaiseKeepsQueue | core/curl_multi_handler.cpp:342-367 | raising loses and invents no task, keeps the order by priority and the other tasks' order, and moves the raised one behind all of its own priority |
| CurlMulti.AdmitFirstInv | core/curl_multi_handler.cpp:288-307 | every admission, also one that fails half-way, keeps each submission accounted for |
| CurlMulti.FinishAllInv | core/curl_multi_handler.cpp:271-279 | so does finishing any set of active tasks |
| CurlMulti.CancelCompletes | core/curl_multi_handler.cpp:259-286 | after a cancellation everything submitted is completed; each queued or active submission got exactly one more result, which is a second one exactly for tasks whose addition to libcurl had failed |
| CurlRuns.PumpEnds | core/curl_multi_handler.cpp:288-307 | when the admission loop ends, no task of protocol priority or better is queued, and others only while the limit is reached |
| CurlRuns.RunInv | core/curl_multi_handler.cpp:259-491 | in every run the queue stays sorted, at most ten tasks above protocol priority are active, and every submission is accounted for |
| CurlRuns.RunInOrder | core/curl_multi_handler.cpp:470-491 | without raises the queue is first come, first served within each priority in every run |
| CurlRuns.EachInOnePlace | core/curl_handler.cpp:86-143 | as long as every admitted task could be added to libcurl, every submission is in exactly one of queued, active and completed, has at most one result, and exactly one after a cancellation |
| CurlRuns.FailedAdditionDeliversTwice | core/curl_handler.cpp:86-118 | a task whose addition fails gets a result at once and a second one at the next cancellation |
| CurlHandles.CancelHandles | core/curl_multi_handler.cpp:259-286 | in any state, a cancellation leaves no handle in use exactly when each belongs to an active task whose context is still there, and cleans none up twice exactly when every active task whose context is there still has its handle |
| CurlHandles.FailedAdditionCleansTwice | core/curl_handler.cpp:108-143 | a task whose addition fails has its handle cleaned up at once and again by the next cancellation |
| CurlHandles.HandlesReturned | core/curl_handler.cpp:52-143 | in every run in which additions work and contexts stay, the handles in use are those of the active tasks, each clean-up is of a handle in use, which then no longer is, and a cancellation leaves none |
| CurlHandles.AdmittedHandle | core/curl_handler.cpp:86-118 | a new handle is taken with its task, and cleaned up at once only when the context runs and the addition fails |
| CurlHandles.FinishedHandle | core/curl_handler.cpp:120-143 | a finished task leaves the map, and its handle is cleaned up unless its context is gone |
| CurlResults.ReportedCodeIsHandedOver | core/curl_handler.cpp:120-143 | a task whose handle libcurl reports while its context runs gets exactly the reported code |
| CurlResults.StepTells | core/curl_multi_handler.cpp:259-491 | every event adds to the results of a submission nothing or exactly the code that it tells it, by the context, the handle and the addition |
| CurlResults.RunTells | core/curl_multi_handler.cpp:259-491 | in every run every result of a submission was told by some event of the run |
| CurlResults.AbortedHasReason | core/curl_handler.cpp:52-143 | whoever gets Aborted submitted after the stop, was cancelled or asked to stop, or libcurl reported it |
| CurlResults.FailedHasReason | core/curl_handler.cpp:52-143 | whoever gets FailedInit had lost the context, got no handle, could not be added, or libcurl reported it |
| CurlHandler.CurlMultiHandler.Perform | core/curl_multi_handler.cpp:316-340 | a submission is aborted at once after the stop, and queued otherwise |
| CurlHandler.CurlMultiHandler.AddTaskToQueue | core/curl_multi_handler.cpp:470-487 | the insertion loop finds the specified place |
| CurlHandler.CurlMultiHandler.RaiseTask | core/curl_multi_handler.cpp:342-367 | erase and insert again, by the same rule |
| CurlHandler.CurlMultiHandler.AddTask | core/curl_multi_handler.cpp:288-307 | the admission loop is the specified one |
| CurlHandler.CurlMultiHandler.InitHandler | core/curl_handler.cpp:52-84 | the three refusals and the handle |
| CurlHandler.CurlMultiHandler.ExecuteMulti | core/curl_handler.cpp:86-118 | the three failures and the addition; only a failed addition cleans the handle up |
| CurlHandler.CurlMultiHandler.FinishMulti | core/curl_handler.cpp:120-143 | exactly one result, which depends on the context, and what becomes of the handle |
| CurlHandler.CurlMultiHandler.CheckDone | core/curl_multi_handler.cpp:64-91 | a message for an active handle finishes its task; any other is ignored |
| CurlHandler.CurlMultiHandler.CancelTasks | core/curl_multi_handler.cpp:259-286 | both loops, in whatever order the map is visited, do what the specification says |
| CurlHandler.CurlMultiHandler.ProcessStoppedTasks | core/curl_multi_handler.cpp:438-462 | exactly the active tasks whose contexts ask for it are finished |
| CurlEasy.LanesAreFifo | core/curl_easy_handler.cpp:120-233 | in every run, on every lane, what ran followed by what waits is exactly what was accepted, in order; what came after the stop was cancelled; a worker leaves only after the stop with nothing waiting |
| CurlEasy.TurnsDrain | core/curl_easy_handler.cpp:193-209 | as many turns of a worker as tasks wait on its lane run them all, in order |
| CurlEasy.CurlEasyHandler.AddTask | core/curl_easy_handler.cpp:120-157 | a task is cancelled after the stop and otherwise goes to the lane of its priority |
| CurlEasy.CurlEasyHandler.WorkerTurn | core/curl_easy_handler.cpp:193-209 | one turn of the fetch or protocol worker |
| CurlEasy.CurlEasyHandler.RunToExit | core/curl_easy_handler.cpp:212-232 | after the stop a worker runs all that waits on its lane, in order, and leaves |
| Counterexamples.TwoResultsForOneTask | core/curl_handler.cpp:86-118 | a concrete run after which one task has two results |
| Tlvs.UnpackPack | core/tools/tlv.cpp:48-66 | unpacking what was packed gives the items back |
| Tlvs.PackUnpack | core/tools/tlv.cpp:48-66 | bytes that unpack are the packing of the items read, so a stream is accepted exactly when it is a packing |
| Tlvs.PackLayout | core/tools/tlv.cpp:136-147 | behind all earlier items stand four bytes of an item's type and four of its length, the lowest first, and its value |
| Tlvs.ItemIsFirst | core/tools/tlv.cpp:79-88 | the item found is the first one of its type, and none is found only if there is none |
| GuiSettingsStore.FileRoundTrip | core/gui_settings.cpp:97-149 | reading a written file stores every setting over what was there and succeeds exactly when there was one: the file of no settings is refused |
| GuiSettingsStore.MapRoundTrip | core/gui_settings.cpp:97-149 | writing a map and reading it into an empty object gives the same map |
| GuiSettingsStore.GuiSettings.Serialize | core/gui_settings.cpp:97-115 | what is written decodes to the values |
| GuiSettingsStore.GuiSettings.UnserializeFile | core/gui_settings.cpp:117-149 | the loop stores item by item; what was stored before a malformed one stays |
| GuiSettingsStore.GuiSettings.Load | core/gui_settings.cpp:50-78 | the file when there is one, the exported settings otherwise, and then they count as changed |
| GuiSettingsStore.GuiSettings.SaveIfNeeded | core/gui_settings.cpp:258-274 | afterwards nothing is changed and the last snapshot decodes to the values |
| GuiSettingsStore.GuiSettings.SetValue | core/gui_settings.cpp:80-84 | sets one value and marks the settings changed |
| GuiSettingsStore.GuiSettings.ClearValue | core/gui_settings.cpp:290-297 | removes one value and marks the settings changed only if it was there |
| StatEvents.StollDecimal | core/statistics.cpp:757-760 | a number written as text reads back as itself |
| StatEvents.Incremented | core/statistics.cpp:739-761 | an increment changes the number by its amount, modulo 2^32, and no other property |
| StatisticsStore.Statistics.InsertEventAt | core/statistics.cpp:615-632 | an accumulating event without the finished mark goes to the one list, any other to the other, which marks a change |
| StatisticsStore.Statistics.IncrementEventProp | core/statistics.cpp:784-841 | both loops do what the specification says: increment all, move the finished ones, start a new one if there was none; events stay in the right list |
| StatisticsStore.Statistics.EraseEach | core/statistics.cpp:824-827 | erasing in reverse order removes exactly the listed positions |
| StatisticsStore.Statistics.Clear | core/statistics.cpp:385-404 | of the events only the newest session start stays, or the first event; the accumulating ones stay |
| StatisticsStore.Statistics.Serialize | core/statistics.cpp:207-259 | the loops write the specified file |
| StatisticsStore.Statistics.Unserialize | core/statistics.cpp:292-365 | the loop reads as specified; what was read before a failure stays |
| StatisticsStore.IncrementPlaced | core/statistics.cpp:784-841 | incrementing an ordinary property keeps every event in the right list |
| StatIncrements.SplitSum | core/statistics.cpp:795-827 | the events that stay and those that leave hold together what all held |
| StatConservation.RunConserves | core/statistics.cpp:784-841 | in every run at most one event of the name accumulates, and all its events together hold the sum of all increments, modulo 2^32 |
| StatConservation.RunConservesExactly | core/statistics.cpp:784-841 | and exactly that sum when no increment is negative and they stay below 2^31 together |
| StatTimes.IncrementTimes | core/statistics.cpp:724-841 | with the folder size known, after an increment no accumulating event of the name began more than 24 hours before, and what moved had begun more than 24 hours before its own time; with the size unknown nothing moves |
| StatTimes.RunTimes | core/statistics.cpp:724-841 | in every run whatever was handed on had begun more than 24 hours before its time and is marked as finished; after an increment with the folder size known nothing overdue still accumulates, and with it unknown nothing is handed on |
| StatTimes.TrafficTold | core/statistics.cpp:866-892 | what is handed on keeps what it had and tells its own downloads and uploads and the size of the folder by their names |
| StatFile.EventRoundTrip | core/statistics.cpp:222-253 | one event reads back with its name, id and properties, and its time in whole seconds |
| StatFile.StatsRoundTrip | core/statistics.cpp:207-365 | writing and reading into a fresh object restores both lists in order exactly when every event lies in the right list |
| NetworkLogs.KeptIffNewerFit | core/network_log.cpp:125-142 | a file survives a clean-up exactly when all newer files together are within the limit |
| NetworkLogs.CleanedSize | core/network_log.cpp:125-142 | what survives exceeds the limit by at most one file |
| NetworkLogs.RunBounded | core/network_log.cpp:150-230 | in every run from an empty directory the files never exceed the limit plus twice a full file with the largest record, not even before a clean-up, and new files get ever larger indices |
| NetworkLogs.RunKeepsBytes | core/network_log.cpp:150-230 | in every run from an empty directory a file is followed by another only when it is full, and while all records together are within the limit the files hold exactly their bytes |
| NetworkLogs.RunConsecutive | core/network_log.cpp:38-78 | the files of such a run are numbered from zero on without a gap |
| NetworkLogs.FirstNumber | core/network_log.cpp:38-78 | the first file of a start is numbered one higher than the largest number there is, or zero |
| NetworkLogs.NetworkLog.CleanLogs | core/network_log.cpp:91-148 | the loop from the newest file on leaves the specified files |
| NetworkLogs.NetworkLog.GetLogIndex | core/network_log.cpp:38-78 | one more than the largest index |
| NetworkLogs.NetworkLog.WriteData | core/network_log.cpp:165-229 | a record opens a file if needed, grows it, and closes it and cleans up when it is full |
| Schedulers.PostsAreSpaced | core/scheduler.cpp:19-39 | in every run with a clock that does not run backwards a timer's posts are at least its timeout apart, so that many timeouts fit into the time since it was pushed |
| Schedulers.PostsAreClose | core/scheduler.cpp:19-39 | with ticks at most d apart the posts are less than the timeout plus d apart |
| Schedulers.StoppedStaysSilent | core/scheduler.cpp:78-88 | a timer that is not running never posts again, whatever follows |
| Schedulers.StopStops | core/scheduler.cpp:78-88 | stopping ends exactly that timer |
| Schedulers.StopKeepsOthers | core/scheduler.cpp:78-88 | and leaves every other timer as it is |
| Schedulers.Scheduler.OnTimeout | core/scheduler.cpp:28-37 | the loop posts for every timer that is due, in order, and moves its time forward |
| Schedulers.Scheduler.PushTimer | core/scheduler.cpp:57-76 | a new timer with the next number starts now |
| Schedulers.Scheduler.StopTimer | core/scheduler.cpp:78-88 | the first timer with the number is removed |

## Left out

- UrlsFound.FoundAtEnd: the grammar has labels and user names of letters, digits and hyphens, a login only behind a scheme, and behind a port a path that begins with a letter or a digit. What the machine does with other texts is stated for single characters and fixed URLs only.
- UrlMail.AddressFound: with four labels in all, an unknown domain and numbers among them, nothing is said.
- UrlSentences.FoundInSentence: asks that no fixed URL is a part of the word, and at the end of a text that none begins in it; the results on comparisons say what happens otherwise.
- Characters of several bytes: the parser's buffer is not an exact suffix of the message there. All texts are single-byte.
- Mentions inside URL text: the characters between the brackets are skipped, so the tokens cannot spell them. `NothingLost` asks for mentions outside URLs.
- UrlParsing.UrlParser.constructor: asks for a host of shared files that is a plain host with an accepted top-level domain and no first label w, ww or www, as the built-in ones are. With another one, reading back the compared text can restart the parser half-way, which is not modelled.
- UrlParsing.UrlParser.AddFixedUrls: asks for further fixed URLs of that shape and for a parser that has read nothing yet, which is how the program calls it.
- MessageTokenizing.MessageTokenizer.constructor: asks for fixed URLs of that shape.
- MessageTokenizing.ParseUrls: asks for a host of shared files of that shape.
- The list of top-level domains: `is_valid_domain` is the parameter `tld`, asked for the lower-case name; the results need it to accept `com` and `net`, and `ru` for the built-in URLs.
- The branch of `save_url` that treats a closing bracket after a slash is never taken, because closing brackets are trimmed before it; the model has no such branch.
- MessageHeaders.MergeOk: the version byte and the offline version of a header are not modelled.
- ArchiveIndexes.ArchiveIndex.LoadFromLocal: a file that cannot be opened, or does not end where a block does, is a flag, and the storage's own error codes are one; the notification about outgoing messages is left out.
- Looking up, filtering and validating single ids in the archive index, and the random holes for debugging: easy members.
- CollectionHeap.ReplaceCounted: a collection's entries are kept in the order they were stored, not by name; the order of releases within one object is therefore the model's, which changes no result on acyclic heaps.
- Collections.Memory.SetAs: asks that the call frees neither the value nor the new content; `ReplaceOwned` and `ReplaceSafeIffReachable` say when it does not. What a call does that touches freed memory is undefined in the program.
- Collections.Memory.SetValue: asks the same of the collection and the new value.
- Scalars in values, the text that `log` produces, and streams and header lists beyond being counted objects without slots.
- Locks, condition variables, sockets, timers of the network library and libcurl itself: each step is atomic, and libcurl is known only by the handles it hands out and reports.
- Priorities that change while a task waits, because its context has died: priorities are fixed at submission.
- CurlRuns.EachInOnePlace: asks that every admitted task can be added to libcurl; `FailedAdditionDeliversTwice` shows what happens otherwise.
- What the three thread pools of the blocking interface do with their tasks, and the result codes on its lanes.
- The order in which entries of a settings map are written: any order is allowed.
- StatEvents.Incremented: text that is not a number counts as zero, where `std::stoll` throws; leading blanks are not skipped.
- StatFile.StatsRoundTrip: asks for ids other than -1, which the program never assigns but would renumber, for times not before 1970, and for sizes below 2^32.
- Sending statistics, their JSON text, and the names of the size intervals, which are parameters.
- NetworkLogs.RunBounded: file indices are unbounded, where `get_log_index` compares them as 32-bit integers; names in the directory that are not log files are ignored.
- Schedulers.PostsAreClose: asks for positive timeouts.
- Failures of the disk, windows, installers, proxies, encryption and all of the user interface.
