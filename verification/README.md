# Verified model of the gdun services and the chatroom

The repository holds a Go back end for live classes (`gdun`), a small chatroom
(`chatroom`) and demos. These Dafny modules model its stateful cores and prove what they
keep over whole runs, not only call by call. Code that changes state in place is a class
or a method with loops, proved against functions on values; the functions then carry the
theorems.

- `LzBits`, `LzFormat`, `LzDecoder`, `LzRoundTrip`, `LzExamples`: the LZ-string decoder, from
  symbols to bits to codes to text, with the encoder as the specification the decoder must
  undo, and literal inputs.
- `Texts`, `StringLists`, `StringMaps`, `UrlEscape`: the text formats everything is stored
  in (comma lists, `key:value` maps, number lists, percent-encoding) as sequences, sets
  and finite maps.
- `ChatProtocol`, `ChatAnswers`, `ChatServer`, `ChatInterleavings`, `Sets`: presence in the
  chatroom as a transition system, what each step and each verdict comes to, the server and
  client objects that take its steps, and what becomes of a login whose parts are interleaved
  with others.
- `ClassTables`, `ClassInvariants`, `ClassRuns`, `ClassEffects`, `ClassService`: class rows,
  rosters, user lists, meetings, progress rows, package links, the group listing and the
  cache; what every call keeps, and what it does.
- `ClassCache`, `ClassHashRuns`, `HashEffects`, `ClassHashService`: the cached hash of a class
  row, field by field, runs over rows and hashes, and the methods that take their steps.
- `AnswerKey`, `ExamGrading`, `MeetingBooks`, `MeetingAnswers`, `MeetingService`: answer keys,
  grading, exam answers and meeting scores with their running totals.
- `ClassProgress`, `ProgressAnswers`, `ReachableProgress`: the overall progress of a user in a
  class, its value, and its bound for every progress text the services write.
- `Notes`, `Invitations`, `HtmlText`, `HtmlFlattener`, `HtmlAnswers`: note columns, invitation
  records and the two HTML flatteners.

## Reading the model

Go's `int` is unbounded here except in `AnswerKey`, where the 64-bit width decides what a
mask is. The decoder's float counter `enlargeIn` takes whole values only and is an
integer; `val & position` with its one-bit mask is a division and a remainder. A slice
index out of range is the outcome `Crash`. Escaped texts, what is escaped into them, and the
texts of pages are bytes, one per character; other texts are characters. The clock, tokens
from the random source, the verdicts of authority checks, of the user store and of input
checks, and the HTML parser are parameters. In the chatroom a login is one step, channels are
first in first out, and the order in which a Go map is walked is arbitrary.

Where a promise fails the code is kept as it is and the failing case is proved:

- The decoder's room bound fails at the first head of a stream that opens with code 3, and
  nowhere else.
- The decoder gives a text back exactly iff it has no surrogate, and needs the padding bit.
- Rosters and user lists part when a user who is on both rosters of a class leaves one.
- Links and the group listing part when a class that is still a child is deleted.
- An answer key is two digits a question iff no mark stands at positions 8 to 63.
- A new note is lost or changed on reload iff its address holds an underscore or a comma or,
  on a video, its trimmed key holds an underscore; the note on a video `a_b` is lost.
- A class does not always read as its row: the deletion of a meeting stamps the row alone, so
  the class is read with the updater, time and address from before, until both sides are
  stamped or the hash is filled again; a link found to be there stamps the hash alone.
- An invitation read after its end is not removed: the code deletes from the other hash.
- A client whose login was accepted gives up iff, between its registration and its reply and
  while the connection is still the user's, another user is announced or writes to all.

Two more hold of everything the services write, and fail only on states they do not reach:

- The overall progress is within 100 for every list iff no progress text has a key twice;
  texts grown by the services' own map operations never do.
- Two reads of a class in a row agree unless an unreadable hash holds a schedule or a next
  time; no call leaves such a hash.

## Main results

- The decoder gives every text back from its encoding: `LzRoundTrip.RoundTrip` with
  `LzDecoder.DecompressFromEncodedUriComponent`; its loop invariant is `LzFormat.EveryHead`.
- Presence in every reachable state: `ChatProtocol.EveryRun`; interleaved logins:
  `ChatInterleavings.ReplyIsFirst`.
- Over all runs only accepted clients chat: `ChatAnswers.VerdictDecides`.
- What every class call does: `ClassEffects` with one lemma for each; what it keeps:
  `ClassRuns.EveryCall`; every run: `ClassRuns.EveryRunKeepsCore`,
  `ClassRuns.EveryRunKeepsRosters`, `ClassRuns.EveryRunKeepsLinks`, `ClassRuns.MeetingsOnlyGrow`;
  over hashes: `ClassHashRuns.HashesShowRows`, `ClassHashRuns.StampsAgreeAfter`,
  `ClassHashRuns.OneSidedStampsAgreeIff`.
- Exams and scores after every run: `MeetingBooks.ExamTotals`, `MeetingBooks.ScoreTotals`;
  keys and credit: `AnswerKey.CodeIsPair`, `ExamGrading.GradeCountsEqualSets`; progress:
  `ProgressAnswers.OverallIs`, `ClassProgress.BoundedIffUnique`,
  `ReachableProgress.ReachableProgressIsBounded`.
- Text formats: `StringLists.NumberListOperations`, `StringMaps.EveryRunIsAMap`,
  `UrlEscape.UnescapeEscape`, `Notes.ColumnRoundTrip`, `Notes.NewNoteStorable`,
  `HtmlText.PageLines`, `HtmlText.BlocksKeepToThemselves`.

## Model

| member | source | states |
|---|---|---|
| LzBits.BaseValue | gdun/common/compress.go:16 | a byte outside the alphabet reads as zero, the padding sign alone as 64, and no symbol as more |
| LzBits.SymbolOfValue | gdun/common/compress.go:16 | each of the 64 symbols has a value of its own |
| LzBits.PlaceInAlphabet | gdun/common/compress.go:15-16 | the value of a symbol is its place in the written-out alphabet A to Z, a to z, 0 to 9, plus, slash, equals sign |
| LzBits.NoPlaceIsZero | gdun/common/compress.go:16 | a byte without a place there reads as zero |
| LzBits.ValueConcat | gdun/common/compress.go:33-50 | the lowest-bit-first value of a + b bits is that of the first a plus 2^a times that of the rest, so two reads compose to one |
| LzBits.StreamOfPack | gdun/common/compress.go:28-50 | packing bits into six-bit symbols and unpacking them gives the bits back, whatever symbol boundaries they cross |
| LzDecoder.DataStruct.constructor | gdun/common/compress.go:91 | a fresh decoder has the whole input unread, three placeholder entries, width 2 and room 5 |
| LzDecoder.DataStruct.NextBit | gdun/common/compress.go:37-43 | one turn of the bit loop takes the first unread bit; it crashes iff that bit was the very last one |
| LzDecoder.DataStruct.ReadBits | gdun/common/compress.go:33-50 | readBits(n) is the little-endian value of the next n bits of the highest-bit-first symbol stream, and leaves exactly the rest unread; it crashes iff it would leave no bit behind |
| LzDecoder.DataStruct.AppendValue | gdun/common/compress.go:52-59 | the dictionary grows by one entry and the room and width follow the format's count; nothing unread is touched |
| LzDecoder.DataStruct.ReadLiteral | gdun/common/compress.go:64-71 | a literal of 8 or 16 bits is one rune, and joins the dictionary as it is read |
| LzDecoder.DataStruct.GetString | gdun/common/compress.go:61-83 | one code yields what the format gives it: a literal, the end, an entry, the entry about to be made, or an error |
| LzDecoder.DecodeLoop | gdun/common/compress.go:97-108 | the loop terminates with the outcome of the run from its first head |
| LzDecoder.DecompressFromEncodedUriComponent | gdun/common/compress.go:90-111 | on every input, empty and malformed ones included, the imperative decoder terminates with the outcome of the format |
| LzFormat.EveryHead | gdun/common/compress.go:52-108 | at every head of every run: entries plus room are 2^width, room is at least 1 and, after the first entry, at most 2^(width-1), and every entry from index 3 on and the last piece are nonempty contiguous pieces of the output |
| LzFormat.RoomBoundFailsOnlyAfterCodeThree | gdun/common/compress.go:90-98 | room exceeds 2^(width-1) iff the head is the first one and the stream opened with code 3, the one opening that adds no entry |
| LzFormat.CodeThreeExample | gdun/common/compress.go:61-83 | the input "wA" is a stream of that kind: the first piece is the replacement rune and the table still has three entries |
| LzFormat.BitsRunOut | gdun/common/compress.go:33-50 | after n pieces at least n bits fewer are unread, so no run is endless |
| LzFormat.DecodeStops | gdun/common/compress.go:97-108 | every input stops after at most as many pieces as it has bits |
| LzFormat.OutputBound | gdun/common/compress.go:99-108 | an output of m pieces has at most m(m+1)/2 runes |
| LzFormat.TrailingSymbolsIgnored | gdun/common/compress.go:90-108 | symbols after a finished decoding change nothing |
| LzRoundTrip.WordReadBack | gdun/common/compress.go:61-83 | one written word is read back as that word, whether as a literal, as a known entry or as the entry the decoder is about to make |
| LzRoundTrip.RoundTrip | gdun/common/compress.go:61-108 | every text of 16-bit units decodes from its encoding without error; surrogate units come back as the replacement rune and all others unchanged |
| LzRoundTrip.RoundTripIsExact | gdun/common/compress.go:61-108 | the text comes back unit for unit iff it has no surrogate |
| LzRoundTrip.TextRoundTrip | gdun/common/compress.go:61-108 | every text of characters below 65536 decodes from its encoding to itself |
| LzExamples.Hello | gdun/common/compress.go:28-111 | the symbols BYUwNmD2Q decode to hello: the alphabet, the order of bits, the marks, the numbering of entries and the growth of the width on a literal input |
| LzExamples.Wide | gdun/common/compress.go:68-71 | the symbols gCAQ decode to the one character 256, which takes sixteen bits |
| LzExamples.BeyondTheTable | gdun/common/compress.go:75-81 | the code after the last entry is the last piece with its first character again; a code beyond it is an error with the text so far |
| LzRoundTrip.UnpaddedStreamCrashes | gdun/common/compress.go:37-43 | a stream that fills its last symbol exactly cannot be decoded: the padding bit is needed |
| LzRoundTrip.UnpaddedExample | gdun/common/compress.go:37-43 | the stream of any two different units below 256 fills its last symbol and cannot be decoded unpadded |
| LzRoundTrip.RoundTripWithTrailer | gdun/common/compress.go:90-108 | an encoding may be followed by anything and still decodes to its text |
| Texts.SplitJoin | gdun/common/string.go:112-125 | splitting a joined list of separator-free items gives the items |
| Texts.JoinSplit | gdun/common/string.go:193-216 | joining the pieces of a split text gives the text |
| Texts.AtoiItoa | gdun/common/string.go:348-386 | a printed number, of either sign, is read back |
| Texts.ItoaIsDecimal | gdun/common/string.go:348-366 | the last character of a printed number is its last decimal digit, before it stands the rest, and a negative number has its sign in front |
| Texts.AtoiReads | gdun/common/string.go:368-386 | a text is a number iff it is digits, at least one, with or without a sign, and the sign decides |
| Texts.AtoiGrows | gdun/common/string.go:368-386 | one digit more multiplies by ten and adds it |
| StringLists.InList | gdun/common/string.go:112-125 | the loop finds an item iff it is one of the comma-separated pieces; nothing is in an empty list, and an empty item is nowhere |
| StringLists.AddToList | gdun/common/string.go:136-146 | returns the list with the item at its end and true, or the list itself and false when the item is there |
| StringLists.DeleteFromList | gdun/common/string.go:193-216 | returns the list without any occurrence of the item, and whether there was one |
| StringLists.ListedIsMember | gdun/common/string.go:112-125 | on lists of nonempty comma-free items, being found is being a member |
| StringLists.NeverListed | gdun/common/string.go:112-125 | an empty item is never found and nothing is found in an empty list; otherwise a piece must be equal |
| StringLists.WithoutAround | gdun/common/string.go:193-216 | taking out an item that stands once leaves what is before it and what is behind it, in order |
| StringLists.AddedIsInsert | gdun/common/string.go:136-146 | adding is set insertion at the end, with an exact change flag |
| StringLists.DeletedIsRemove | gdun/common/string.go:193-216 | deleting is removal that keeps the order, with an exact change flag |
| StringLists.DeleteUndoesAdd | gdun/common/string.go:136-216 | deleting a freshly added item restores the text |
| StringLists.IntArrayToString | gdun/common/string.go:348-366 | prints a number list with commas |
| StringLists.StringToIntArray | gdun/common/string.go:368-386 | reads the numbers of a list; one bad piece makes the whole list empty |
| StringLists.ParseIntsText | gdun/common/string.go:348-386 | every number list is read back from its text |
| StringLists.ParsedPieces | gdun/common/string.go:368-386 | the numbers of a text are its pieces read one by one; one piece that is no number leaves none |
| StringLists.NumberListOperations | gdun/common/string.go:112-216 | on number lists the text operations are those on the numbers, which is what lets the class tables speak of sequences of ids |
| StringLists.MergeInto | gdun/common/string.go:160-190 | the merging pass finds the number, or prints the list with it before the first greater number |
| StringLists.AddToSortedIntList | gdun/common/string.go:148-191 | parses, sorts and merges; unchanged text and false when the number is there, and a leading comma when the list cannot be read |
| StringLists.SortedAddedOnNumbers | gdun/common/string.go:148-191 | on number lists: a sorted list with multiset old + {n} when n is new, the text as it was otherwise |
| StringLists.UnreadableIsLost | gdun/common/string.go:148-191 | a list that cannot be read is replaced by a comma and the number, which cannot be read either |
| StringMaps.AddResourceToMap | gdun/common/string.go:263-308 | replaces the value in place, appends a new key, and leaves the text alone iff the binding is there already; empty entries vanish |
| StringMaps.DeleteFromMap | gdun/common/string.go:310-344 | drops every entry of the key and tells whether there was one |
| StringMaps.InMap | gdun/common/string.go:253-261 | finds a key iff some entry starts with the key and a colon |
| StringMaps.AddedIsPut | gdun/common/string.go:263-308 | on well-formed text adding is ordered map update, and reports no change iff the binding was there |
| StringMaps.DeletedIsRemove | gdun/common/string.go:310-344 | on well-formed text deleting is key removal, and reports whether the key was bound |
| StringMaps.NewKeyGoesLast | gdun/common/string.go:263-308 | a new key and its value go to the end of the text, after a comma if there is a text |
| StringMaps.OldKeyStays | gdun/common/string.go:263-344 | a key that is there keeps its place when its value changes, and leaves what is before and behind it when it is deleted |
| StringMaps.EmptyPiecesVanish | gdun/common/string.go:263-344 | an empty piece goes with the first change and stays without one |
| StringMaps.ContainsIsBound | gdun/common/string.go:253-261 | on well-formed text being found is being in the domain |
| StringMaps.RefinesFiniteMap | gdun/common/string.go:253-344 | every operation on well-formed text is the operation on finite maps, and its result is well formed |
| StringMaps.DeleteUndoesAdd | gdun/common/string.go:263-344 | deleting a freshly added key restores the text |
| StringMaps.EveryRunIsAMap | gdun/common/string.go:263-344 | any sequence of calls leaves well-formed text of the finite map that the same updates and removals leave |
| UrlEscape.EscapeIsBytewise | gdun/common/string.go:18-26 | the four passes of escaping act byte by byte |
| UrlEscape.UnescapeEscape | gdun/common/string.go:18-51 | unescaping an escaped text gives the text, trimmed |
| UrlEscape.EscapedByte | gdun/common/string.go:18-26 | a single byte stays if it is a letter, a digit or one of three signs, and is else a percent sign with its two hexadecimal digits in capitals |
| UrlEscape.EscapedSpace | gdun/common/string.go:18-26 | a space inside a trimmed text is %20, between the forms of what is before and behind it |
| UrlEscape.SpacesAreWhite | gdun/common/string.go:18-19 | what is trimmed is exactly the code points with the White_Space property, by their UTF-8 bytes |
| UrlEscape.EscapeHasNoSeparators | gdun/common/string.go:18-26 | an escaped text holds no comma, colon, underscore or plus |
| UrlEscape.EscapedForStr64 | gdun/common/string.go:28-35 | the escaping of identifiers is undone by unescaping, but for the trimming; its result holds no comma and no colon, is empty only for a blank text, and holds an underscore iff the trimmed text does |
| UrlEscape.IdListSurvives | gdun/service/class_sub.go:65-75 | a list of ids stored escaped comes back as it was |
| ChatProtocol.EveryRun | chatroom/server/process/userProcess.go:130-212 | in every reachable state, with atomic logins and first-in first-out channels: every online user's connection has a client of that user, the reply opens every connection, no client counts itself or somebody offline, and on a user's current connection the known and the announced ids are all other online users |
| ChatProtocol.QuietListIsExact | chatroom/client/process/userProcess.go:180-193 | once its channel is empty a current client lists exactly the other online users |
| ChatProtocol.ReplyOpensTheConnection | chatroom/server/process/userProcess.go:130-212 | the message a client takes first is its login's reply, and no later one is |
| ChatAnswers.VerdictDecides | chatroom/server/process/userProcess.go:143-176 | over all runs: a client chats only if its login was accepted and is refused only if it was not; an unfavourable verdict leaves the reply 500, 403 or 505, by its kind, and taking it refuses the client; a favourable one lets it chat |
| ChatAnswers.RefusedLogin | chatroom/server/process/userProcess.go:143-160 | a refused login appends its reply, 500 for an unknown user, 403 for a wrong password, 505 for anything else, to its own channel and does nothing else |
| ChatAnswers.AcceptedStep | chatroom/server/process/userProcess.go:162-211 | in every reachable state an accepted login puts its user online, announces it once with status 0 on the connection of every other online user, replies 200 with the list, and changes nothing else |
| ChatAnswers.PostStep | chatroom/server/process/smsProcess.go:15-40 | in every reachable state a posted message is appended once on the connection of every online user but its sender and nowhere else |
| ChatAnswers.TakeStep | chatroom/client/process/server.go:47-78 | a client takes the first message of its channel and nobody else changes |
| ChatAnswers.ReceivedBy | chatroom/client/process/userProcess.go:168-209 | a waiting client chats after a reply 200 with everybody else on its list and is refused by anything else; a chatting one records the announced status and heeds nothing else |
| ChatInterleavings.ReplyIsFirst | chatroom/server/process/userProcess.go:162-211 | for a login whose registration and reply have any parts of other logins and any messages between them: its channel holds what its user was sent while the connection was the user's, then the reply; the reply comes first, and the client enters the chat, iff there was no other user's announcement and no other user's message while the connection was the user's |
| ChatInterleavings.ListLacksOnlyUnannounced | chatroom/server/process/userProcess.go:162-211 | for such a login that goes right, its listing taken at any moment before its reply: while the user keeps the connection, the ids its client knows or will know are all online users but itself, except exactly those who registered after the listing and are not announced yet |
| ChatInterleavings.WaitingConnectionsAreFresh | chatroom/server/process/userProcess.go:130-212 | in every reachable state a connection that waits for its login has an empty channel and nobody online on it, which is where the previous statement starts |
| ChatInterleavings.InterleavedLoginsRefuseAClient | chatroom/server/process/userProcess.go:162-211 | two logins on two connections: the other's announcement in between refuses an accepted client, its registration alone does no harm |
| ChatInterleavings.LoginIsItsParts | chatroom/server/process/userProcess.go:162-211 | an atomic login is registration, notification and reply, in this order |
| ChatServer.UserMgr.AddOnlineUser | chatroom/server/process/userMgr.go:21-23 | the user is online on this connection; nobody else changes |
| ChatServer.UserMgr.NotifyOthersOnlineUser | chatroom/server/process/userProcess.go:20-60 | exactly one announcement more on the channel of every other online user |
| ChatServer.UserMgr.ServerProcessLogin | chatroom/server/process/userProcess.go:130-212 | the whole new server state of a login, refusals with their codes included |
| ChatServer.UserMgr.SendGroupMes | chatroom/server/process/smsProcess.go:15-40 | one copy for every online user but the sender |
| ChatServer.ChatClient.UpdateUserStatus | chatroom/client/process/userMgr.go:24-37 | the announced status is recorded; other entries stay |
| ChatServer.ChatClient.Login | chatroom/client/process/userProcess.go:171-193 | a positive reply fills the list with everybody but the user, any other reply ends the client |
| ChatServer.ChatClient.ServerProcessMes | chatroom/client/process/server.go:47-78 | an announcement changes the list and other messages do not |
| ClassRuns.EveryCall | gdun/service/class_user.go:15-362 | every call keeps the core invariants; it keeps rosters and links agreed iff it is not a removal of a user from one of two rosters, respectively a deletion of a package's child |
| ClassEffects.AddClassCall | gdun/service/class.go:411-556 | a valid call inserts an empty class under the next id, caches it and lists it in its group; an invalid one does nothing |
| ClassEffects.EndClassCall | gdun/service/class.go:796-853 | the end time is set in row and record iff the session may see the class and it has not ended; otherwise the class is read at most |
| ClassEffects.ChangeUserCall | gdun/service/class_user.go:15-360 | iff the user is not on the roster as asked: the roster, the user list in the table and the cache, and one progress row for each current meeting of a new student without one |
| ClassEffects.AddMeetingCall | gdun/service/class_meeting.go:15-124 | iff allowed and valid: one meeting more at the end of the class list in row and record, under the next id and not ended, with one progress row for each student |
| ClassEffects.CopyMeetingToCall | gdun/service/class_meeting.go:191-262 | the same for a copy of a meeting that exists; a meeting that does not exist is not copied and the class not read |
| ClassEffects.EndMeetingCall | gdun/service/class_meeting.go:268-340 | iff the meeting is on the class list, exists, has not ended and can end: its end time is set and the counter of the class is one more |
| ClassEffects.DeleteMeetingCall | gdun/service/class_meeting.go:432-580 | iff the meeting is on the class list and exists, and the class has not ended or the session is the system: it goes from the current list to the end of the deleted one, and the counter is one less if it had ended |
| ClassEffects.CloneClassCall | gdun/service/class.go:565-625 | iff allowed and valid: a new class with as many new meetings, numbered in order, not ended and without rows |
| ClassEffects.DeleteClassCall | gdun/service/class.go:862-995 | iff the class is empty: row, record and listing go, the lists of its users lose it, and its deleted meetings that may be purged go with their rows |
| ClassEffects.AddSubClassCall | gdun/service/class_sub.go:11-227 | iff the class is a package that does not list the child: the child at the end of its list, the package on the list of the child, and the child off the listing |
| ClassEffects.DeleteSubClassCall | gdun/service/class_sub.go:233-462 | iff the package lists the child: off both lists, and listed in its group again iff no parent is left |
| ClassEffects.GetClassCall | gdun/service/class.go:1160-1274 | reading a class changes nothing but its record in the cache |
| ClassRuns.EveryRunKeepsCore | gdun/service/class_meeting.go:432-579 | after any run: cached records and user lists are the stored ones, ids are fresh, current and deleted meeting lists have no repeats and do not overlap, the counter is the number of current meetings that ended, no (user, meeting) pair has two rows and every current student has one for every current meeting |
| ClassRuns.EveryRunKeepsRosters | gdun/service/class_user.go:57-348 | after any run without such a removal a class is in a user's list iff the user is on one of its rosters |
| ClassRuns.EveryRunKeepsLinks | gdun/service/class_sub.go:11-462 | after any run without such a deletion s is a child of c iff c is a parent of s, and a group lists exactly its parentless classes |
| ClassRuns.BothRostersExample | gdun/service/class_user.go:57-348 | a user put on both rosters and taken off one is on a roster of a class that is not in its list |
| ClassRuns.LinksExample | gdun/service/class.go:862-993 | a package goes on listing a child that was deleted and is no class any more |
| ClassRuns.MeetingsOnlyGrow | gdun/service/class_meeting.go:47-113 | no call loses a meeting from the union of a class's two lists, and what joins it is fresh |
| ClassRuns.ReadingAgrees | gdun/service/class.go:1160-1274 | after any run a class reads the same from the cache and, the entry lost, from its row |
| ClassInvariants.ChangeUserRosters | gdun/service/class_user.go:57-248 | a roster change keeps the agreement iff it adds, or removes a user who is not on both rosters |
| ClassInvariants.ChangeUserProgress | gdun/service/class_user.go:252-348 | adding a student leaves one row for each of the class's meetings |
| ClassInvariants.AddMeetingProgress | gdun/service/meeting.go:516-562 | a new meeting has one row for each student |
| ClassInvariants.AddMeetingMeetings | gdun/service/class_meeting.go:47-113 | a new meeting keeps the lists of all classes in order |
| ClassInvariants.EndMeetingMeetings | gdun/service/class_meeting.go:268-324 | ending a meeting keeps the counter right |
| ClassInvariants.ClampNeverTaken | gdun/service/class_meeting.go:545-556 | when an ended meeting is deleted the counter is positive, so the clamp at zero is never taken |
| ClassInvariants.DeleteMeetingMeetings | gdun/service/class_meeting.go:463-567 | deleting a meeting moves it to the other list and keeps the counter right |
| ClassInvariants.CloneClassMeetings | gdun/service/class.go:565-627 | a cloned class gets fresh meetings, none of them shared |
| ClassInvariants.DeleteClassRosters | gdun/service/class.go:921-985 | deleting a class takes it off the lists of all its users |
| ClassInvariants.DeleteClassLinks | gdun/service/class.go:862-993 | deleting an empty class keeps the links iff it is no package's child |
| ClassInvariants.AddSubClassLinks | gdun/service/class_sub.go:65-223 | adding a child keeps both lists and the group listing in agreement |
| ClassInvariants.DeleteSubClassLinks | gdun/service/class_sub.go:287-456 | removing a child does so too |
| ClassService.Service.GetClass | gdun/service/class.go:1160-1274 | the record in the cache, or the row, which then is cached |
| ClassService.Service.AddClass | gdun/service/class.go:411-559 | the whole new state: row, cache entry, listing and counter |
| ClassService.Service.EndClass | gdun/service/class.go:796-856 | the end time is set once, in the row and in the cache |
| ClassService.Service.FindMissing | gdun/service/class_user.go:264-282 | the loops leave exactly the meetings the user has no row for |
| ClassService.Service.AddMissingRows | gdun/service/class_user.go:252-348 | one row for each of them and no other change |
| ClassService.Service.ChangeUser | gdun/service/class_user.go:15-362 | the whole new state of a roster change, or none when the roster already is as asked |
| ClassService.Service.AddMeeting | gdun/service/class_meeting.go:15-124 | the whole new state: meeting, rows, lists, cache |
| ClassService.Service.CopyMeetingTo | gdun/service/class_meeting.go:191-262 | the whole new state of a copy into another class |
| ClassService.Service.EndMeeting | gdun/service/class_meeting.go:268-340 | the whole new state; a meeting ends once |
| ClassService.Service.DeleteMeeting | gdun/service/class_meeting.go:432-579 | the whole new state, refusals included |
| ClassService.Service.CloneAll | gdun/service/class.go:583-596 | one new meeting for each of the source's, in order |
| ClassService.Service.CloneClass | gdun/service/class.go:565-627 | the whole new state of a clone |
| ClassService.Service.DeleteClass | gdun/service/class.go:862-993 | the whole new state; a class with meetings or children stays |
| ClassService.Service.AddSubClass | gdun/service/class_sub.go:11-229 | the whole new state of both transactions |
| ClassService.Service.DeleteSubClass | gdun/service/class_sub.go:233-462 | the whole new state of both transactions |
| ClassCache.NewClassInfoFromMap | gdun/service/class_data.go:38-220 | a hash is read as a record iff its required fields are there and its required numbers are numbers; optional fields default to empty and zero |
| ClassCache.ShownIsRead | gdun/service/class_data.go:38-220 | a hash that shows every column of a row reads as that row, but for the schedule and the next time, which are no columns |
| ClassCache.WrittenShows | gdun/service/class.go:1244-1273 | a hash so written shows every column of the row |
| ClassCache.WriteFields | gdun/service/class.go:1244-1273 | all columns are written over whatever the hash held |
| ClassCache.NeededFields | gdun/service/class_data.go:38-200 | a hash can be read iff seven texts are there and eight numbers are there and numbers |
| ClassCache.ReadFields | gdun/service/class_data.go:38-220 | which field each part of the record is read from, with what stands for a missing one |
| ClassCache.ShownColumns | gdun/service/class.go:1244-1273 | which column each field of a written hash has |
| ClassCache.ReadColumns | gdun/service/class.go:1208-1243 | which column each part of the record is, when it is read from the row |
| ClassCache.SecondReadAgrees | gdun/service/class.go:1163-1274 | over a hash that was there but could not be read, the two answers agree iff it held no schedule and no next time |
| ClassCache.LeftoverSchedule | gdun/service/class.go:1163-1274 | over a hash that holds a schedule and nothing else, the first answer has no schedule and the second one has it |
| ClassHashRuns.HashesShowRows | gdun/service/class.go:1160-1274 | after any run from an empty cache of reads, updates of rows and hashes, unread writes and fills, preloads, insertions, deletions and lost entries: none of sixteen columns in a hash says anything but what the row has, a hash can be read iff it holds every column, and a class reads as its row but for the stamps and the counter, which are those a two-sided machine tells from the calls, and for the schedule and the next time |
| ClassHashRuns.ReadsAsItsRowIff | gdun/service/class.go:1160-1274 | a class reads as its row, but for the schedule and the next time, iff that machine has the same stamps and counter on both sides |
| ClassHashRuns.StampsAgreeAfter | gdun/service/class_meeting.go:474-560 | stamps of hash and row agree unless the last call that stamped, filled, made or lost the hash was a deletion of a meeting, which stamps the row alone, or a change that found its list as it should be, which stamps the hash alone |
| ClassHashRuns.OneSidedStampsAgreeIff | gdun/service/class_sub.go:165-185 | and after such a call, until the next stamp, they agree iff it set the very stamp the other side had |
| ClassHashRuns.CountsPartIff | gdun/service/class_meeting.go:518-556 | a call leaves equal counters of finished meetings equal unless it deletes an ended meeting when the row counts none: the row goes below zero, the hash does not |
| ClassHashRuns.CountsAgreeAfter | gdun/service/class_meeting.go:518-556 | counters agree after every run that deletes ended meetings only where one is counted, as the class tables do |
| ClassHashRuns.DeletionLeavesOldStamps | gdun/service/class_meeting.go:514-556 | a class that was read, and then had a meeting deleted, is read with the stamps from before the deletion |
| HashEffects.ReadStep | gdun/service/class.go:1160-1274 | a hash that could be read is left; any other becomes one that shows every column of the row and keeps its schedule; other classes stay |
| HashEffects.ChangeStep | gdun/service/class_meeting.go:75-104 | a change sets its columns and the stamps on both sides and leaves the counters |
| HashEffects.EndMeetingStep | gdun/service/class_meeting.go:296-325 | both counters are one more and both sides are stamped |
| HashEffects.DropMeetingStep | gdun/service/class_meeting.go:514-556 | a deletion sets the lists on both sides, the stamps in the row alone, and takes one off both counters if the meeting had ended, off the one in the hash not below zero |
| HashEffects.StampHashStep | gdun/service/class_sub.go:165-185 | a list found as it should be stamps the hash alone |
| HashEffects.LastEditStands | gdun/service/class_meeting.go:75-104 | an edited column has what its last edit says |
| HashEffects.OtherColumnsKept | gdun/service/class_meeting.go:75-104 | edits leave every other column as it was |
| HashEffects.RewriteStep | gdun/service/class_user.go:660-699 | keepers or meetings are set in row and hash and nothing else changes |
| HashEffects.FillStep | gdun/service/class.go:1608-1650 | a filled field is the column of the row |
| HashEffects.PreloadStep | gdun/service/class.go:185-330 | loading a class makes its hash show the row |
| HashEffects.InsertStep | gdun/service/class.go:471-545 | a new class has its row and a hash that shows it |
| HashEffects.GoneSteps | gdun/service/class.go:886-905 | a deleted class loses row and hash, an evicted one its hash |
| HashEffects.TimesStep | gdun/service/class_meeting.go:126-183 | schedule and next time are set in the hash after the class was read |
| ClassHashRuns.ReadsAgreeAfterRuns | gdun/service/class.go:1160-1274 | after any such run two reads in a row are equal, so the case of the leftover schedule does not come about |
| ClassHashService.Service.GetClass | gdun/service/class.go:1160-1274 | what is answered and what is cached, for a readable hash, an unreadable one and a missing row |
| ClassHashService.ReadTwice | gdun/service/class.go:1160-1274 | a class read while not cached and read again from the cache that filled gives equal records |
| ClassHashService.Service.EndMeeting | gdun/service/class_meeting.go:268-340 | the step of a run that adds one to both counters, the hash's from the class as it was read, and stamps both sides; refusals only read |
| ClassHashService.Service.CountDown | gdun/service/class_meeting.go:544-556 | the hash's counter goes down by one, but not below zero |
| ClassHashService.Service.DropMeeting | gdun/service/class_meeting.go:514-556 | lists on both sides, the row's counter and the stamps in the row, the hash's counter counted down |
| ClassHashService.Service.DeleteMeeting | gdun/service/class_meeting.go:432-570 | the step of a run for each branch of a deletion, with the texts of both lists; refusals only read |
| ClassHashService.Service.ChangeParent | gdun/service/class_sub.go:135-225 | the step of a run for both branches of a link's second transaction: both sides when the list changed, the stamps of the hash alone when not |
| HashEffects.DeletionIs | gdun/service/class_meeting.go:437-484 | on lists of ids: a deletion puts the meeting from the one list to the end of the other iff it is on the list as read, exists, and the class has not ended or the session is the system |
| HashEffects.EndingIs | gdun/service/class_meeting.go:268-292 | a meeting is ended iff the class is read with it on its list and it can end |
| HashEffects.LinkingIs | gdun/service/class_sub.go:135-225 | on lists of ids: a package joins or leaves the parents on both sides, and where nothing changes the hash alone is stamped |
| ClassHashService.Service.RefreshKeeperList | gdun/service/class_user.go:660-699 | the keepers go to row and hash without a look at the class |
| ClassHashService.Service.GetMeetingList | gdun/service/class_meeting.go:701-744 | from the hash's one field if it is there, else from the row, which fills that field |
| ClassHashService.RunsAreBacked | gdun/service/class.go:1160-1274 | in every state of a run a hash that can be read has a row behind it, which is all these methods ask |
| ClassCache.WritingBothSides | gdun/service/class_user.go:84-115 | a column changed in the row and in a hash that shows it is read back from the hash, and the hash shows the new row |
| AnswerKey.MaskOfMarks | gdun/service/gd_adapter_data.go:275-280 | a mask is below 256 iff no mark stands at positions 8 to 63, and is then the number of its eight marks |
| AnswerKey.CodeIsPair | gdun/service/gd_adapter_data.go:273-284 | a gradable question's code is two hex digits iff no mark stands at positions 8 to 63 |
| AnswerKey.SameCode | gdun/service/gd_adapter_data.go:273-284 | codes are equal iff the sets of marks are |
| AnswerKey.CodeOfEight | gdun/service/gd_adapter_data.go:273-284 | when no mark stands behind the eighth, the code is two digits, the high one first, whose number is 1 for the first mark, 2 for the second and so on to 128 |
| AnswerKey.CodeSpells | gdun/service/gd_adapter_data.go:273-284 | questions of types 4 and 6 have no code; the code of any other without a mark at position 63 spells the number of its marks, in two digits at least |
| AnswerKey.TraversalOrder | gdun/service/gd_adapter_data.go:286-308 | sub-exams, items and parts of composed items are taken in order; a single item is one question, a composed one its single parts, anything else none |
| AnswerKey.KeyHasPairs | gdun/service/gd_adapter_data.go:286-308 | when all marks fit, the key has two digits for each gradable question |
| AnswerKey.KeyPairAt | gdun/service/gd_adapter_data.go:286-308 | and the pair of a question stands after those of the gradable questions before it |
| AnswerKey.NineMarksBreakTheKey | gdun/service/gd_adapter_data.go:273-284 | a ninth choice that is right makes a key of odd length |
| AnswerKey.GdTikuExam.SolveOne | gdun/service/gd_adapter_data.go:273-284 | the loop over the marks appends the code of a gradable question and counts any question |
| AnswerKey.GdTikuExam.Solve | gdun/service/gd_adapter_data.go:286-308 | count and key are those of all questions in traversal order |
| AnswerKey.GdTikuExam.Number | gdun/service/gd_adapter_data.go:310-334 | the JSON form numbers the same questions in the same order from one on, and its count is that of Solve |
| ExamGrading.GradeCountsEqualSets | gdun/service/meeting_exam.go:390-405 | an answer encoded as the key is has its length, and is credited with exactly the gradable questions whose sets of marks are equal |
| MeetingService.CountCorrect | gdun/service/meeting_exam.go:390-403 | the loop counts the pairs that agree |
| MeetingService.Service.GetUserProgress | gdun/service/meeting_student.go:862-990 | the cached copy if it can be read, an empty one for an experience user, else the row, which then is cached |
| MeetingService.Service.AnswerExam | gdun/service/meeting_exam.go:348-505 | the whole new state and outcome, all refusals included |
| MeetingBooks.RecordedWhen | gdun/service/meeting_exam.go:348-505 | an answer is recorded iff the exam is offered and has a key, the user has a row and no answer to it, and the text has the key's length, an even one; the credit is the number of equal pairs |
| MeetingAnswers.AnswerExamCall | gdun/service/meeting_exam.go:348-505 | every outcome with its guard in the order of the checks; a recorded answer puts exam, time, right answers and questions, in this order, at the end of the row and copy texts and adds to both totals; otherwise nothing but the copy read changes |
| MeetingAnswers.CreditIs | gdun/service/meeting_exam.go:390-403 | the credit is the number of questions whose two characters agree |
| MeetingBooks.StepKeeps | gdun/service/meeting_exam.go:376-505 | every call keeps rows, copies and totals true to what was accepted; the silent rollback branch is never taken |
| MeetingBooks.ExamTotals | gdun/service/meeting_exam.go:376-505 | after any run: a row's text is the map of the accepted answers, each exam once, its totals are their sums, correct is at most total, and the cached copy agrees |
| MeetingBooks.AnsweredOnce | gdun/service/meeting_exam.go:376-378 | an exam answered before is refused and no row changes |
| MeetingService.CombineIntArrayNumerically | gdun/common/string.go:550-574 | pointwise sum, the shorter list continued with zeros |
| MeetingService.Service.ScoreMeeting | gdun/service/meeting_student.go:575-736 | the whole new state and outcome, all refusals included |
| MeetingBooks.ScoredWhen | gdun/service/meeting_student.go:581-611 | a vector is recorded iff it is nonempty with entries 0 to 5, the meeting exists and the user is an ordinary one with a row who has not scored it |
| MeetingAnswers.ScoreMeetingCall | gdun/service/meeting_student.go:575-736 | every outcome with its guard; entered scores are the text of row and copy, the meeting counts one more and its text reads as the sums; otherwise nothing but the copy read changes |
| MeetingBooks.ScoreTotals | gdun/service/meeting_student.go:682-690 | after any run: the meeting's text parses to the pointwise zero-extended sums of the recorded vectors, the count is their number, each sum is within 0 and five times it, and the cached copy agrees |
| MeetingBooks.VotesDiffer | gdun/service/meeting_student.go:602-611 | the recorded vectors are valid and of different ordinary users |
| ClassProgress.ListedIds | gdun/service/class.go:1751-1770 | the map of a list's two-part entries has exactly their keys |
| ClassProgress.CountDone | gdun/service/class.go:1775-1795 | counts the progress entries whose key is listed |
| ClassProgress.Cache.GetClassOverallProgress | gdun/service/class.go:1729-1877 | the percentage of the class's meetings as the cache shows them; zero when the meeting list is not cached |
| ClassProgress.ProgressBounds | gdun/service/class.go:1852-1865 | with unique keys the progress is within 0 and 100, and is 100 iff there is an exam or a video and all listed ones are done |
| ProgressAnswers.OverallIs | gdun/service/class.go:1852-1865 | the value: exams weigh 20 and videos 80 where a class has both, 100 where it has one kind, each share rounded down for itself |
| ProgressAnswers.OneKindDone | gdun/service/class.go:1852-1865 | with both kinds listed all exams and no video are 20, all videos and no exam are 80 |
| ProgressAnswers.OneOfEach | gdun/service/class.go:1742-1865 | one meeting with one exam and one video: the exam done is 20, the video done is 80 |
| ProgressAnswers.ItemCounts | gdun/service/class.go:1751-1795 | an item of two parts counts by its first part, any other not at all |
| ProgressAnswers.ViewIs | gdun/service/class.go:1742-1830 | which cached list and text each count comes from, and nothing where the list is missing |
| ClassProgress.BoundNeedsUniqueKeys | gdun/service/class.go:1775-1795 | a progress text counts at most what is listed, whatever the list, iff no key stands in it twice |
| ClassProgress.BoundedIffUnique | gdun/service/class.go:1742-1865 | the progress of a class stays within 100, whatever its lists, iff no progress text has a key twice |
| ClassProgress.RepeatedKeysExceed | gdun/service/class.go:1742-1865 | for any progress text with a key twice there are lists that make the progress at least 200 |
| ReachableProgress.ReachableExamTexts | gdun/service/meeting_exam.go:376-505 | after any run the exam text of every row and every cached copy has each key once |
| ReachableProgress.ReachableVideoTexts | gdun/service/meeting_student.go:155-303 | a video text grown from nothing by the marks of any ids, escaped as the code does, has each key once |
| ReachableProgress.ReachableProgressIsBounded | gdun/service/class.go:1742-1865 | so with any lists, after any run of answers and any marks, the progress of any user is within 0 and 100, and is 100 iff there is an exam or a video and all listed ones are done |
| ClassProgress.ProgressNeverFalls | gdun/service/class.go:1742-1865 | marking one more exam or video done never lowers the progress, the first mark into a missing field included |
| Notes.NoteRoundTrip | gdun/service/note_data.go:24-77 | a note is read back from its text if its key, address and body hold no underscore, and the text is no note at all otherwise |
| Notes.NotePieces | gdun/service/note_data.go:61-77 | the ten pieces of the text of a note in their order |
| Notes.ReadNoteIsClean | gdun/service/note_data.go:24-60 | a note that was read holds no underscore, and no comma if its text held none |
| Notes.ColumnRoundTrip | gdun/service/note.go:185-233 | a column reloads as the notes appended to it, in order, iff none of their texts holds an underscore or a comma |
| Notes.NoteAdded | gdun/service/note.go:482-588 | a note goes to the end of its own column and changes no other |
| Notes.UnderscoredAreSkipped | gdun/service/note.go:211-227 | while no note holds a comma a column reloads as exactly the notes without an underscore, in order |
| Notes.NewNoteStorable | gdun/service/note.go:334-360 | a new note can be stored iff its address holds no separator and, on a video, its trimmed key no underscore; keys of the other types and bodies may hold anything |
| Notes.NewNoteFields | gdun/service/note.go:334-360 | a new note has what was given in its own fields, and key and body unescape to what was given, trimmed |
| Notes.SelectedAre | gdun/service/note.go:482-588 | the notes of a column are those of one user, class and kind, of the four kinds |
| Notes.UnderscoredVideoNoteIsLost | gdun/service/note.go:334-360 | a new note on a video whose trimmed key holds an underscore adds nothing to what its column reloads as |
| Notes.VideoNoteExample | gdun/service/note.go:334-360 | any note on the video a_b is lost on reload |
| Notes.NoteService.AddNote | gdun/service/note.go:368-405 | a note made of what the user gave joins the notes offered, key and body escaped |
| Notes.NoteService.AddNoteToDatabase | gdun/service/note.go:475-591 | after any run of additions every column holds exactly its notes in order; a type outside 1 to 4 is refused |
| Notes.NoteService.PreloadColumn | gdun/service/note.go:211-227 | the reload loop yields the notes of a column iff all of them can be stored, and without commas exactly those without an underscore |
| Invitations.TokenRoundTrip | gdun/service/class_user_experience.go:17-22 | a generated token record is read back field for field, and its two texts unescape to the trimmed originals |
| Invitations.TeacherRoundTrip | gdun/service/class_user_experience.go:28-33 | a generated teacher record is read back field for field |
| Invitations.TokenGrantsOnce | gdun/service/class_user_experience_local.go:107-112 | a token that granted is gone: whoever comes later finds no record |
| Invitations.UseCall | gdun/service/class_user_experience_local.go:34-115 | the answer is that of the record found; a granted token goes and every other record stays, a granted teacher among them; at the end what goes is in the other hash |
| Invitations.FirstFault | gdun/service/class_user_experience_local.go:48-99 | a record is refused by its first fault, in the order of the checks |
| Invitations.IssuedToken | gdun/service/class_user_experience_local.go:48-99 | an issued token is granted before its end, out of time from then on, and no key for any other end |
| Invitations.IssuedToAll | gdun/service/class_user_experience.go:20-26 | every new token has the record and the others keep theirs |
| Invitations.ExpiredRecordStays | gdun/service/class_user_experience_local.go:85-99 | an expired record stays where it was read unless the teacher id is negative; for a token or a teacher only an entry of the other hash can go |
| Invitations.ExpiredTokenIsFoundAgain | gdun/service/class_user_experience_local.go:85-99 | any issued token read after its end is refused, and found and refused again later |
| Invitations.InvitationCache.GenerateInvitationToken | gdun/service/class_user_experience.go:12-36 | the whole new state: one record for each token, or one for the teacher |
| Invitations.InvitationCache.GetClassInvitationInfo | gdun/service/class_user_experience_local.go:34-115 | the answer and the whole new state, all refusals included |
| HtmlText.LinesHoldAllPieces | gdun/common/string_html.go:50-132 | the pieces of the lines are, in order, the trimmed nonempty texts and the image addresses of the page: nothing is lost, doubled or moved |
| HtmlText.LinesAreGood | gdun/common/string_html.go:108-132 | no line and no piece is empty |
| HtmlText.BlocksKeepToThemselves | gdun/common/string_html.go:94-101 | for a p, table, thead or tr anywhere in a page the lines are those of what comes before it, of its children and of what comes after, each holding exactly its own pieces: no line has a piece from inside together with one from outside |
| HtmlText.BreaksSeparate | gdun/common/string_html.go:90-92 | a br anywhere in a page ends one line and begins another |
| HtmlText.ImagesSeparate | gdun/common/string_html.go:62-88 | an img anywhere in a page does so too, with a line of its own if it has an address |
| HtmlText.ImagesStandAlone | gdun/common/string_html.go:62-86 | an image is a line of its own |
| HtmlText.WordsShareALine | gdun/common/string_html.go:53-58 | texts with nothing between them share a line |
| HtmlAnswers.ElementIs | gdun/common/string_html.go:60-106 | p, table, thead and tr set their content off, img is its address between cuts, br is a cut, any other element its content |
| HtmlAnswers.OtherNodesAre | gdun/common/string_html.go:53-58 | a text is its trimmed words if there are any, a document its content, anything else nothing |
| HtmlAnswers.ContentsInOrder | gdun/common/string_html.go:134-139 | contents are taken in order |
| HtmlAnswers.AddressIs | gdun/common/string_html.go:68-86 | two slashes get the scheme, one the scheme and the domain, any other address stays |
| HtmlAnswers.FirstSource | gdun/common/string_html.go:68-86 | the address is that of the first src attribute |
| HtmlAnswers.LowerOf | gdun/common/string_html.go:61 | names are compared in small letters |
| HtmlAnswers.TwoLines | gdun/common/string_html.go:27-46 | pieces are joined by a space, lines by a backslash and an n |
| HtmlAnswers.CleanedCharacter | gdun/common/string_html.go:12-15 | line ends go, a tab is a space, a plus its percent code |
| HtmlAnswers.FixedDomain | gdun/service/gd_adapter_question.go:346-353 | the domain of the second flattener |
| HtmlFlattener.Flattener.SaveTmpList | gdun/common/string_html.go:108-132 | the pending words become one line, if there are any, and are cleared |
| HtmlFlattener.Flattener.Parse | gdun/common/string_html.go:50-106 | the two shared lists after a node are those after its events |
| HtmlFlattener.HTML2PlainText | gdun/common/string_html.go:11-48 | the text of the page's lines, or the parser's error |
| HtmlFlattener.GdAdapter.Address | gdun/service/gd_adapter_question.go:346-353 | an address without a domain is put on the fixed one |
| HtmlFlattener.GdAdapter.ParseNode | gdun/service/gd_adapter_question.go:323-379 | the second copy of the walk keeps the same two lists |
| HtmlFlattener.GdAdapter.Parse | gdun/service/gd_adapter_question.go:282-321 | the second copy returns what the first returns for the domain www.gitlab.hfjy.com |

## Left out

- HTTP handlers, sessions, static files, logging, configuration, object storage, PDF
  transcoding, push and WeChat clients, SQL text: plumbing; tables and cache are maps.
- Failed commits after a cache write, lost second transactions and racing requests: the code
  does not guard against them, so every step is atomic and every write succeeds.
- SyncMeeting with its end-time flag and DeleteMeetingPermanently: one changes end times
  behind the finished counter, the other checks one list and edits the other.
- ChangeClass rewriting a package's list, in the class tables (over hashes it is a Change),
  and deletion of notes: they bypass the steps and formats modelled.
- Updater, address and time columns, the next time and the schedule of a class, in the class
  tables (ClassHashRuns has them); the index by outside course id, and the meeting rows' own
  columns beyond the end time.
- ClassService.Service.AddClass: does not keep the index by outside course id, nor the columns
  of a class that no other modelled step reads.
- ClassService.Service.CopyMeetingTo: does not copy the courseware, exam and video lists.
- ClassService.Service.CloneAll: does not copy the meetings' own columns.
- ClassService.Service.CloneClass: does not copy the name, the template and those columns.
- ClassService.Service.DeleteMeeting: does not set the stamps, which ClassHashRuns does, and
  does not refresh the next time, which is no column.
- MeetingService.Service.GetUserProgress: takes a cached copy to hold all the fields it is
  always written with; only the two numbers can make it unreadable.
- ReachableProgress.ReachableVideoTexts: whether a video belongs to the meeting is not asked, so
  more marks are allowed than the code allows.
- ClassHashRuns.HashesShowRows: a call's read and writes are one step, and what a Change writes
  may be anything of the sixteen columns, the same on both sides; the stamps of a deletion for
  good are those of a deletion, and its branch that changes nothing is not a step.
- ClassHashService.Service.EndMeeting: whether the meeting's own row can be ended is a parameter.
- ClassHashService.Service.DeleteMeeting: the next time is set by the step SetTimes after it.
- ClassHashService.Service.ChangeParent: the class is read just before its transaction.
- ClassService.Service.AddMeeting: the new meeting has no columns but its end time, the class's
  next time is not refreshed, and the meeting's hash is taken to agree with its row, because
  only the end time is read by the other steps.
- ClassService.Service.EndMeeting: does not refresh the next time, and does not model the later
  fetch of viewing times from the live service, which changes no list, counter or link.
- ClassService.Service.ChangeUser: does not write the meeting rows' own roster column; the lists
  are sequences of ids; that the texts stored are theirs is StringLists.NumberListOperations
  and UrlEscape.IdListSurvives.
- ClassRuns.EveryRunKeepsRosters: excludes removals from one of two rosters, because the
  agreement fails then, as ClassRuns.BothRostersExample shows.
- ClassRuns.EveryRunKeepsLinks: excludes deletion of a child, because the agreement fails then.
- MeetingService.Service.AnswerExam: starts after the check of the meeting and of the right to visit
  it, and does not store the raw answer for the later report.
- MeetingService.Service.ScoreMeeting: does not store the written feedback.
- ClassProgress.Cache.GetClassOverallProgress: counts only what the cache holds, as the code does.
- Notes.NoteService.AddNote: ids and times are parameters, and the queue to the database is a call.
- Notes.NoteService.AddNoteToDatabase: one column per user, class and type; the second, typed
  table is grown the same way and left out.
- Invitations.InvitationCache.GetClassInvitationInfo: registration and the experience users'
  own ids are not modelled.
- HtmlFlattener.HTML2PlainText: lower-casing is that of ASCII letters, which all HTML element
  names are; the HTML parser is a parameter.
- ChatServer.UserMgr.ServerProcessLogin: passwords, registration, message encoding and sockets
  are not modelled; a verdict stands for the user store, and nobody ever goes offline, as in
  the code, which never takes a user off the list.
- ChatProtocol.EveryRun: a login is one step; logins in parts are ChatInterleavings.ReplyIsFirst
  and ChatInterleavings.ListLacksOnlyUnannounced, about one login among any others. The map of
  online users is taken to be read and written one part at a time.
- AnswerKey.GdTikuExam.Number: only the numbers of the JSON form, not its text; the choice
  letters of verifyChoicesAndAnswer and the sorting of sub-exams are not modelled.
- Cipher and hash helpers, byte conversions, file suffixes, and the demo programs.
