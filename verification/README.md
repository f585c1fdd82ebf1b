# Verification of the matchmaking server

A model in Dafny of the parts of this GameSpy / Nintendo WFC server that compute or keep state in
ways that are hard to check by reading, with proofs that they do what they are for.  Check all of
it with `dafny verify dfyconfig.toml`.

* **Field and curve arithmetic** (`BinaryField.dfy`, `FieldBytes.dfy`, `Curve.dfy`): the byte code
  for GF(2)[t] modulo t^233 + t^74 + 1 against polynomial arithmetic, the inversion chain against
  the power it is meant to be, and the point operations of curve B-233 (appendix D.1.3.2 of FIPS
  186-4) against the lines that meet the curve.
* **QR2 matchmaking** (`Qr2Objects.dfy`, `Qr2.dfy`, `Qr2Info.dfy`, `Qr2State.dfy`): sessions, logins
  and groups as linked objects in four tables.  Each method is one section the source runs under its
  mutex.  `Tables.Valid` is the invariant every step keeps.  Beside the tables a journal says which
  reservations were made and cleared, and a set of entrances how each member came into its group.
  Saving and loading is modelled as dropping and rebuilding pointers.
* **The filter language** (`Filter*.dfy`): the scanner as a cursor, the parser's surgery on a doubly
  linked tree, and the evaluator on that tree.  `FilterTree` describes the tree under construction
  as frames along its rightmost spine; the linked tree is proved to follow it.  `FilterMeaning` and
  `FilterPrint` say what the filters of the client library mean, and `FilterServers` carries that from
  the text to the list of servers a client gets.
* **Codecs and the cipher** (`MatchCommand.dfy`, `GameSpyMessage.dfy`, `Yaz1.dfy`, `Chunked.dfy`,
  `Cipher.dfy`, `Decimal.dfy`): round trips in both directions, the check of compressed streams
  against a decoder, and the permutation inside the cipher's key.
* **The backend hand-over** (`HandOver.dfy`): connection handlers, a mutex, a counter of calls under
  way and a replaceable client, one step at a time.
* **NAT negotiation** (`Natneg.dfy`): the clients of a session as packets arrive.  `Steps` says on
  values what each packet may do; the methods on the linked clients are proved to follow it.

Some facts about the code that the proofs brought out:

* `VerifyYaz1Data` adds the length of a long run in eight bits.  `Yaz1.AcceptedExact` says exactly
  when an accepted stream is what it claims, and `Yaz1.WideRunAccepted` gives one that is not.
* `EncodeMatchCommand` does not restore a deny of four bytes or a version 3 reservation of eight
  (`MatchCommand.EncodeOfDecode`, `MatchCommand.LossyAccepted`); all else it does.
* `EncodeMatchCommand` writes an acceptance of version 11 without user data, which
  `DecodeMatchCommand` refuses: its length test asks for one word too many
  (`MatchCommand.BareAcceptanceRefused`).  `MatchCommand.DecodeOfEncode` says exactly which commands
  survive.
* A filter that orders a field that is no integer makes `Eval` panic while it recovers, since the
  recovered value is not a string; `FilterMeaning.FilterMeans` says when, and
  `FilterMeaning.MissingFieldCrashes` gives a filter and a server.
* A `VerifyState` reset does not take the mutex.  One that lands inside the closing section of a
  handler lets a dropped connection be closed at the backend (`HandOver.Frontend.DroppedAndClosed`);
  that is the only way.
* Files load into a consistent QR2 state exactly when they satisfy `Qr2State.Loadable`.
* The message format does not escape backslashes.  `GameSpyMessage.ParseOfPrinted` says exactly which
  commands survive printing and parsing; `GameSpyMessage.BackslashBreaks` gives one that does not.
* A login that overwrites one with a session breaks the QR2 invariant (`Qr2.Tables.Login`); GPCM waits
  for the old connection of a profile to end before it logs in.

## Model

| member | source | states |
|---|---|---|
| `BinaryField.TrinomialVanishes` | gpcm/ecdsa.go:37-48 | shifting by 233 is the same as adding the element to its shift by 74: the ring is GF(2)[t] modulo t^233 + t^74 + 1 |
| `BinaryField.MulComm` | gpcm/ecdsa.go:50-70 | the product does not depend on which factor is scanned |
| `BinaryField.MulAssoc` | gpcm/ecdsa.go:50-70 | products may be regrouped, as the inversion chain does |
| `BinaryField.MulDistr` | gpcm/ecdsa.go:50-70 | the product is linear in both factors |
| `BinaryField.DivisionExists` | gpcm/ecdsa.go:81-100 | every polynomial has a quotient and a reduced remainder by the trinomial |
| `BinaryField.DivisionUnique` | gpcm/ecdsa.go:81-100 | the remainder by the trinomial is unique |
| `BinaryField.MulIsProductModTrinomial` | gpcm/ecdsa.go:50-70 | r is the ring product of a and b if and only if some quotient times the trinomial plus r is their polynomial product |
| `BinaryField.SpreadIsSquare` | gpcm/ecdsa.go:72-106 | spreading the bits of a polynomial apart squares it |
| `BinaryField.PowAdd` | gpcm/ecdsa.go:108-130 | powers multiply by adding exponents |
| `BinaryField.PowDouble` | gpcm/ecdsa.go:108-115 | one squaring doubles the exponent |
| `FieldBytes.ReducedTopByte` | gpcm/ecdsa.go:37-48 | an array is reduced exactly when its top byte is at most 1 |
| `FieldBytes.LowInjective` | gpcm/ecdsa.go:20-27 | reduced arrays with the same polynomial are the same bytes |
| `FieldBytes.EltIsZero` | gpcm/ecdsa.go:20-27 | true exactly for the zero bytes, which for reduced arrays is the zero element |
| `FieldBytes.EltAdd` | gpcm/ecdsa.go:29-35 | the ring sum, and reduced for reduced summands |
| `FieldBytes.EltMulX` | gpcm/ecdsa.go:37-48 | in place, also when source and target are one array: multiplies by t modulo the trinomial and leaves a reduced array |
| `FieldBytes.HornerRound` | gpcm/ecdsa.go:50-70 | one round of the multiplication loop: times t, plus b when the coefficient is set |
| `FieldBytes.EltMul` | gpcm/ecdsa.go:50-70 | the bitwise Horner loop computes the ring product, reduced when b is |
| `FieldBytes.EltSquareToWide` | gpcm/ecdsa.go:72-79 | the table lookup on nibbles spreads all bits of the array apart |
| `FieldBytes.WideReduce` | gpcm/ecdsa.go:81-100 | the in-place folding of 480 bits leaves the remainder modulo the trinomial |
| `FieldBytes.EltSquare` | gpcm/ecdsa.go:102-106 | the fast squaring is the product of the element all 240 bits stand for with itself, reduced; that is the element multiplied when it is reduced |
| `FieldBytes.ItohTsujii` | gpcm/ecdsa.go:108-115 | for any byte strings: if they are reduced powers u^e and u^f, j squarings and a product give u^(e * 2^j + f) |
| `FieldBytes.ChainLink` | gpcm/ecdsa.go:117-130 | a chain step takes u^(2^m - 1) and u^(2^j - 1) to u^(2^(m+j) - 1) |
| `FieldBytes.InvTimes` | gpcm/ecdsa.go:117-130 | u times the result of the chain is u^(2^233 - 1), as the inverse of Fermat's little theorem must be |
| `FieldBytes.EltInv` | gpcm/ecdsa.go:117-130 | reduced on all input; on reduced elements the ten steps compute that power |
| `Curve.DoubleOnCurve` | gpcm/ecdsa.go:141-164 | given inverses, doubling keeps points on y^2 + xy = x^3 + x^2 + b or at infinity |
| `Curve.PlusOnCurve` | gpcm/ecdsa.go:166-205 | given inverses, so does addition in all its cases |
| `Curve.ChordThird` | gpcm/ecdsa.go:187-204 | for curve points with different x the negated sum lies on the line through them, and along that line the curve equation vanishes at the two points and at the negated sum, and nowhere else |
| `Curve.TangentThird` | gpcm/ecdsa.go:141-164 | the negated double lies on the tangent, along which the curve equation vanishes twice at the point, and there |
| `Curve.PlusUndone` | gpcm/ecdsa.go:166-205 | for all points of the curve, adding q and then its negative gives p back |
| `Curve.PlusComm` | gpcm/ecdsa.go:166-205 | points may be added in either order |
| `Curve.ScalarIsNumber` | gpcm/ecdsa.go:207-219 | the bits that are scanned stand for the big-endian number in the scalar bytes |
| `Curve.TimesIsMultiple` | gpcm/ecdsa.go:207-219 | double-and-add over the bits of a number gives its multiple by halving |
| `Curve.TimesOnCurve` | gpcm/ecdsa.go:207-219 | given inverses, so does double-and-add over any bits |
| `Curve.PointIsZero` | gpcm/ecdsa.go:132-139 | true exactly for the all-zero bytes, on any input; for a reduced point that is the marker at infinity |
| `Curve.PointDouble` | gpcm/ecdsa.go:141-164 | on every reduced point the code on bytes computes the doubling formula, whose meaning `Curve.TangentThird` states |
| `Curve.Chord` | gpcm/ecdsa.go:187-204 | on reduced coordinates the chord case computes the addition formula, whose meaning `Curve.ChordThird` states |
| `Curve.PointAdd` | gpcm/ecdsa.go:166-205 | on reduced points the code on bytes computes point addition with its zero, equal and opposite cases, whose meaning `Curve.ChordThird`, `Curve.TangentThird` and `Curve.PlusUndone` state |
| `Curve.PointMul` | gpcm/ecdsa.go:207-219 | on every reduced point the result is the multiple by the big-endian number in the scalar bytes; for every scalar it is on the curve of the point |
| `Qr2Objects.LookupKeyInjective` | qr2/session.go:261-264 | different addresses have different table keys |
| `Qr2Objects.Group.FindNewServer` | qr2/group.go:457-478 | the server becomes the member with state 2 and the lowest join index, or none, whatever the map order |
| `Qr2Objects.Group.ServerChoiceUnique` | qr2/group.go:457-478 | with distinct join indices there is only one such choice |
| `Decimal.ParseOfFormat` | qr2/session.go:193-259 | a printed number parses back to itself |
| `Decimal.FormatInjective` | qr2/session.go:193-259 | different profile IDs print differently |
| `Decimal.SignsAndDigits` | qr2/session.go:193-259 | a sign in front of a number counts, and the digits are 0 to 9 in order |
| `Qr2.JournalGrows` | qr2/message.go:317-363 | appending an entry keeps every recorded entrance justified, and every standing reservation but the one it clears |
| `Qr2.Tables.RemoveFromGroup` | qr2/session.go:77-119 | the member leaves, an empty group is unlisted, a lost server is chosen anew |
| `Qr2.Tables.LeaveGroup` | qr2/session.go:77-119 | leaving keeps the whole table invariant |
| `Qr2.Tables.RemoveSession` | qr2/session.go:53-74 | the session disappears from all four tables, the other entries stay as they were, and the invariant holds |
| `Qr2.Tables.MergePayload` | qr2/session.go:177-184 | protected fields of the session survive, all others are replaced by the payload |
| `Qr2.Tables.Publish` | qr2/session.go:159-174 | a new session gets an unused non-zero search ID and enters both tables |
| `Qr2.Tables.SetProfileID` | qr2/session.go:193-259 | accepts exactly the profile IDs the checks allow; only the session that carried the profile ID before is removed; login and session then point at each other |
| `Qr2.Tables.VerdictMeans` | qr2/session.go:193-234 | a session that has a profile keeps exactly that one; another takes exactly a canonical number of a profile that is logged in, from its address if one is given, with a valid rating |
| `Qr2.Tables.LoginFieldsAre` | qr2/session.go:246-255 | the four fields written are those of the login and the profile ID; no other field is touched |
| `Qr2.Tables.SetSessionData` | qr2/session.go:122-188 | a heartbeat is refused exactly when its profile ID is, and then changes nothing; else the session at the address has exactly the client fields sent; of the others only the one with that profile ID goes, and the rest stay as they were |
| `Qr2.Tables.Login` | qr2/logins.go:28-45 | puts a login without a session in place; the invariant survives if and only if the entry it overwrites, if any, had no session |
| `Qr2.Tables.Logout` | qr2/logins.go:70-82 | removes the login and its session |
| `Qr2.Tables.SetDeviceAuthenticated` | qr2/logins.go:47-57 | sets the flag on the login and in its session |
| `Qr2.Tables.ExpireSessions` | qr2/session.go:267-328 | keeps exactly the sessions heard of within the last hour |
| `Qr2.Tables.FoundGroup` | qr2/group.go:74-110 | a new group holds its founder alone, as server, with its match type and with join index 0, and the founding is recorded |
| `Qr2.Tables.Number` | qr2/group.go:127-132 | the next join index is one no member has |
| `Qr2.Tables.JoinGroup` | qr2/group.go:127-142 | the newcomer leaves its old group and is a member of the new one under the newest index, and how it came in is recorded |
| `Qr2.Tables.JoinFieldsAre` | qr2/group.go:127-132 | the join index is written, the player count for version 90 only, and no other field is touched |
| `Qr2.Tables.ProcessResvOK` | qr2/group.go:68-143 | both sessions end in the sender's group, old or new; refused only when no group can be made |
| `Qr2.Tables.ProcessGPResvOK` | qr2/group.go:153-184 | accepted exactly when both sessions are listed, both profile IDs are accepted and a group can be had; then both are in one group; nobody else comes into a group |
| `Qr2.Tables.Identify` | qr2/group.go:174-181 | both sessions take their profiles exactly when neither is refused before, and then both stay listed, in their groups |
| `Qr2.Tables.CheckGPReservationAllowed` | qr2/group.go:302-335 | there is an answer exactly when both players are listed, the profile is accepted and the claim does not displace the destination; it is "ok" if both are unrestricted or the match is private, and else "restricted_join" |
| `Qr2.Tables.AnswerMeans` | qr2/group.go:270-300 | no answer exactly when a login is missing; with both it is "ok" exactly when neither is restricted, or the join type is 2 or 3 and the destination is in a private group, or in none and has match type 2 or 3; "restricted_join" otherwise |
| `Qr2.Tables.ProcessGPStatusUpdate` | qr2/group.go:219-268 | a report counts exactly when the profile has a session or can claim the one at the address, which it then gets; a leaving status takes that address out of its group, and nobody else; otherwise nothing changes |
| `Qr2.Tables.ProcessGPTellAddr` | qr2/group.go:186-217 | both sessions take their profiles when these are accepted, and nothing else joins or comes in |
| `Qr2.Tables.RefreshServer` | qr2/heartbeat.go:128-137 | a missing server is chosen anew, a present one stays; then the match type is the server's, or the old one if it names none |
| `Qr2.Tables.Reserve` | qr2/message.go:317-342 | records the reservation and the search ID it was made to |
| `Qr2.Tables.ClearReservation` | qr2/message.go:361-363 | a deny or wait clears it |
| `Qr2.Tables.HandleReply` | qr2/message.go:343-363 | an acceptance ends with both in one group exactly when it answers a standing reservation or both are together, in the right version, and a group can be had; a receiver that changes groups had the reservation |
| `Qr2.Tables.ProcessClientMessage` | qr2/message.go:293-369 | a reservation is recorded exactly when both players are logged in and unrestricted or the match is private; a clearing exactly when it answers one; memberships change by acceptances only, and each change is recorded |
| `Qr2.Tables.Step` | qr2/session.go:53-259 | every request does what its operation promises and keeps all parts of the invariant; only a delivered message writes the journal, as `Delivered` says; only acceptances bring sessions into groups, and every entrance is recorded with its way |
| `Qr2.Tables.Run` | qr2/message.go:293-369 | after every run of requests from empty tables the invariant holds, and every member of every group founded it, was put there by GPCM, or was let in while its reservation stood |
| `Qr2.Tables.MembersCameIn` | qr2/group.go:68-143 | in every valid state each member of each group has a recorded entrance into that group, justified if by an answer |
| `Qr2.Tables.SessionsDistinct` | qr2/session.go:53-259 | no two listed sessions share address, search ID, login or profile ID |
| `Qr2.Tables.OneGroupPerSession` | qr2/group.go:68-143 | membership and group pointer say the same |
| `Qr2.FreeSearchID` | qr2/session.go:162-171 | while the table is not full an unused search ID exists |
| `Qr2Info.Insert` | qr2/group_info.go:105-130 | inserts a join index into the strictly increasing list |
| `Qr2Info.GroupPlayers` | qr2/group_info.go:105-153 | the list is strictly increasing in the numbers and holds exactly the members' indices, each with that member's fields, its name and, when anybody may join, whether it is open |
| `Qr2Info.OrderUnique` | qr2/group_info.go:105-130 | two lists with these properties are equal, so the map order does not show |
| `Qr2Info.ListedGroupsDistinguished` | qr2/group_info.go:105-153 | the groups of every valid state can be listed this way |
| `Qr2State.DecodeSessions` | qr2/session.go:367-380 | decoding gives fresh sessions with the saved fields and no pointers |
| `Qr2State.LoadSessions` | qr2/session.go:367-392 | sessions under their keys, and under their search IDs when they have one |
| `Qr2State.LoadLogins` | qr2/logins.go:98-129 | a session and the login its profile ID field names point at each other |
| `Qr2State.LoadGroups` | qr2/group.go:872-913 | each group gets exactly the sessions that name it, and a server chosen from them |
| `Qr2State.Load` | qr2/session.go:367-392 | all three files, whatever they hold, are loaded into tables that mirror them |
| `Qr2State.SavedIsLoadable` | qr2/session.go:354-364 | every valid state saves to loadable files |
| `Qr2State.LoadedIsValid` | qr2/group.go:872-913 | loaded tables are valid if and only if the files are loadable, a condition on keys and uniqueness in the files |
| `Qr2State.SavedAgain` | qr2/group.go:858-913 | saving what was loaded gives the same files, up to match types taken from new servers |
| `Qr2State.ReloadKeeps` | qr2/group.go:858-913 | a valid state saved and loaded has the same sessions, logins, links, memberships and groups, is valid, and every server is the lowest-index candidate |
| `MatchCommand.ReadWords` | common/match_command.go:303-312 | the loop over profile IDs reads consecutive little-endian words, all inside the buffer |
| `MatchCommand.ReadResvOKList` | common/match_command.go:288-375 | the decoder with this loop gives the specified result on every buffer |
| `MatchCommand.WriteWords` | common/match_command.go:599-603 | the loop appends the words as little-endian bytes |
| `MatchCommand.WriteResvOKList` | common/match_command.go:593-653 | the encoder with this loop gives the specified message |
| `MatchCommand.ReservationRoundTrip` | common/match_command.go:193-592 | a reservation of any version re-encodes to the same bytes, but for the 8-byte one of version 3 |
| `MatchCommand.ResvOKListRoundTrip` | common/match_command.go:288-653 | an acceptance of version 3 or 11 re-encodes to the same bytes |
| `MatchCommand.ResvOK90RoundTrip` | common/match_command.go:288-653 | an acceptance of version 90 re-encodes to the same bytes |
| `MatchCommand.EncodeOfDecode` | common/match_command.go:182-707 | for every command, version and accepted buffer, re-encoding gives the buffer back if and only if the buffer is not one of two lossy forms |
| `MatchCommand.DecodeOfEncode` | common/match_command.go:182-707 | for every command, decoding its encoding gives it back if and only if it is well formed: a known version, exactly the part its number names, within the limits of the decoder and with zeros where the version carries nothing |
| `MatchCommand.AcceptedExactly` | common/match_command.go:182-543 | the buffers accepted without a loss are exactly the encodings of well-formed commands |
| `MatchCommand.ReservationLayout` | common/match_command.go:553-592 | every field of an encoded reservation is at its offset, by version |
| `MatchCommand.ResvOKListLayout` | common/match_command.go:593-632 | every field of an encoded acceptance of version 3 or 11 is at its offset behind the list |
| `MatchCommand.ResvOK90Layout` | common/match_command.go:633-653 | every field of an encoded acceptance of version 90 is at its offset |
| `MatchCommand.ByteOrder` | common/match_command.go:553-653 | words are little-endian and IP addresses big-endian |
| `MatchCommand.BareAcceptanceRefused` | common/match_command.go:298-300 | an acceptance of version 11 without user data is encoded and refused by the decoder |
| `MatchCommand.LossyAccepted` | common/match_command.go:193-420 | a deny of four bytes and a version 3 reservation of eight that are accepted and re-encode to less |
| `MatchCommand.DecodeInjective` | common/match_command.go:182-543 | no two accepted buffers outside the lossy forms decode alike |
| `FilterTokens.OperatorsHaveLevels` | serverbrowser/filter/tokens.go:119-162 | every operator the scanner can accept has a level, so no operator token is invalid |
| `FilterTokens.LevelsOf` | serverbrowser/filter/tokens.go:174-180 | comparisons bind more strongly than "and" in either spelling |
| `FilterTokens.LevelTable` | serverbrowser/filter/tokens.go:152-180 | the level of every operator, in either case |
| `FilterTree.ClimbNeedsNoParent` | serverbrowser/filter/parse.go:133-143 | the climb from an operator ends at an operator whose parent exists and is no operator |
| `FilterTree.PutProper` | serverbrowser/filter/parse.go:68-156 | after every accepted lexeme the spine is the empty root, then brackets and valid operators only |
| `FilterTree.PutLeaves` | serverbrowser/filter/parse.go:68-156 | every step keeps the values in the order they were scanned |
| `FilterTree.LeavesInOrder` | serverbrowser/filter/parse.go:68-156 | the leaves of the finished tree are the scanned values, left to right |
| `FilterNodes.TreeNode.IndexOf` | serverbrowser/filter/treenode.go:100-107 | the first position of the element, or -1 |
| `FilterNodes.TreeNode.AddElement` | serverbrowser/filter/treenode.go:62-66 | appends a child and sets its parent |
| `FilterNodes.TreeNode.Push` | serverbrowser/filter/treenode.go:81-97 | a new node takes this one's place among the parent's children and has it as only child |
| `FilterNodes.Builder.AddLeaf` | serverbrowser/filter/parse.go:47-49 | adds a leaf under the current node; links and spine stay consistent |
| `FilterNodes.Builder.OpenBracket` | serverbrowser/filter/parse.go:68-72 | adds a bracket, which becomes current |
| `FilterNodes.Builder.GoUp` | serverbrowser/filter/parse.go:80-92 | the parent becomes current; it is the spine node above |
| `FilterNodes.Builder.PushOperatorOnLast` | serverbrowser/filter/parse.go:126-151 | the last child goes under a new operator, which becomes current |
| `FilterNodes.Builder.PushOperatorOnCurrent` | serverbrowser/filter/parse.go:145-147 | the current node goes under a new operator, which becomes current |
| `FilterNodes.Builder.ClimbOperators` | serverbrowser/filter/parse.go:133-143 | the loop never asks a missing parent for its value, and climbs as the value-level climb does |
| `FilterNodes.Builder.ParseOperator` | serverbrowser/filter/parse.go:114-156 | the relinking on the heap does what the step on frames does, and panics exactly where that fails |
| `FilterNodes.Builder.ParseCloseBracket` | serverbrowser/filter/parse.go:75-94 | leaves the innermost bracket, or panics when none is open |
| `FilterNodes.Builder.RootRepresents` | serverbrowser/filter/treenode.go:62-97 | from every reachable state the linked nodes below the root form the tree of the frames |
| `FilterScanner.Scanner.Next` | serverbrowser/filter/scanner.go:69-80 | the next character and a step forward, or the end |
| `FilterScanner.Scanner.Commit` | serverbrowser/filter/scanner.go:48-53 | the text since the start position |
| `FilterScanner.Scanner.SkipSpaces` | serverbrowser/filter/scanner.go:150-155 | moves to the first character that is no space |
| `FilterScanner.Scanner.ScanWord` | serverbrowser/filter/scanner_helper.go:44-59 | takes the longest word at the position, or nothing |
| `FilterScanner.Scanner.ScanNumber` | serverbrowser/filter/scanner_helper.go:61-83 | takes the longest number with an optional sign or point in front, or nothing |
| `FilterScanner.Scanner.AcceptOperator` | serverbrowser/filter/parse.go:96-111 | takes the first operator of the list that stands here and is not the start of a longer word |
| `FilterScanner.Scanner.ParseText` | serverbrowser/filter/parse.go:171-192 | the text between equal quotes, or a panic at the end of the text |
| `FilterScanner.EqualsIsOperator` | serverbrowser/filter/parse_branches.go:117-121 | a lone "=" is always taken as an operator, so the branch after it is not reached |
| `FilterParser.Parser.BranchValuePart` | serverbrowser/filter/parse_branches.go:23-49 | does what the scan at this position says, and leaves scanner and tree behind it |
| `FilterParser.Parser.BranchOperatorPart` | serverbrowser/filter/parse_branches.go:106-128 | the same for operators and closing brackets |
| `FilterParser.Parser.PumpExpression` | serverbrowser/filter/parse_branches.go:4-16 | terminates on every text with the verdict of the specification |
| `FilterParser.Parser.Parse` | serverbrowser/filter/parse.go:21-34 | for every text: the linked tree of an accepted text, or the rejection; no missing parent is followed |
| `FilterParser.ParseIsLexThenRun` | serverbrowser/filter/parse_branches.go:4-49 | parsing equals scanning all lexemes and building with them one by one |
| `FilterParser.LeavesOfText` | serverbrowser/filter/parse_branches.go:23-60 | the leaves of an accepted text's tree are its values in order |
| `FilterParser.TextSelects` | serverbrowser/filter.go:10-16 | any spelling of a list of tests joined by "and", nested or not, evaluates to 1 exactly when all tests hold |
| `FilterMeaning.TestTreeMeans` | serverbrowser/filter/eval.go:129-194 | a comparison has the value of its test: integers in their own order, strings for equality, with the rule for rk and for ignored ratings |
| `FilterMeaning.AllTrueMore` | serverbrowser/filter/eval.go:196-208 | an "and" over more arguments is the conjunction, stopping at the first that fails |
| `FilterMeaning.AfterWord` | serverbrowser/filter/parse.go:114-156 | what the tree looks like after an "and": lists nest to the left, and a finished bracket before the same word extends its list |
| `FilterMeaning.RunConj` | serverbrowser/filter/parse.go:68-156 | a list of any nesting is accepted wherever one can start, and its tree has the list's meaning |
| `FilterMeaning.FilterMeans` | serverbrowser/filter/eval.go:31-106 | evaluating the parsed tree gives the left-to-right conjunction, and the escaping panic exactly at the first test that meets no integer |
| `FilterMeaning.FilterSelects` | serverbrowser/filter/eval.go:19-29 | with integers where they are ordered, the value is 1 if and only if all tests hold, and 0 otherwise |
| `FilterMeaning.MissingFieldCrashes` | serverbrowser/filter/eval.go:19-29 | numplayers < 12 on a server without that field meets the escaping panic |
| `FilterEval.AnyTrueMeans` | serverbrowser/filter/eval.go:210-222 | an "or" is 1 exactly when some argument other than "0" comes after arguments "0" only, and 0 exactly when all are "0" |
| `FilterEval.MathMeans` | serverbrowser/filter/eval.go:269-315 | orderings are those of the integers, sums and differences are taken modulo 2^64, and the bit operators work bit by bit |
| `FilterPrint.PrintedLexes` | serverbrowser/filter.go:10-14 | scanning undoes printing, for every list with plain names, texts without quotes and 64-bit numbers |
| `FilterPrint.PrintedFilterSelects` | serverbrowser/filter.go:10-14 | a printed filter parses and selects exactly the servers of which every test holds |
| `FilterServers.FilterServers` | serverbrowser/filter.go:18-31 | from text to servers: parses, then evaluates the linked tree for every eligible server; for every printed list of tests the answer is the servers of which all tests hold, in order, unless one cannot be decided |
| `FilterServers.TreeSelects` | serverbrowser/filter.go:33-67 | a tree with the meaning of a list of tests selects exactly the eligible servers of which all hold, and panics exactly when some eligible server cannot be decided |
| `FilterServers.PrintedSelects` | serverbrowser/filter.go:10-67 | every printed list of tests is accepted and selects in this way |
| `FilterServers.ConjAllHold` | serverbrowser/filter.go:10-14 | a list holds exactly when every test in it does, however it is nested |
| `FilterExpression.Expression.Eval` | serverbrowser/filter/eval.go:31-55 | the recursion over the linked tree computes the value of the tree |
| `FilterExpression.Expression.SwitchFunction` | serverbrowser/filter/eval.go:57-106 | each operator is dispatched on its lower-case spelling |
| `FilterExpression.Expression.EvalEquals` | serverbrowser/filter/eval.go:129-154 | equality of all arguments as strings, with the rule for rk |
| `FilterExpression.Expression.EvalAnd` | serverbrowser/filter/eval.go:196-208 | the loop stops at the first "0" |
| `FilterExpression.Expression.EvalOr` | serverbrowser/filter/eval.go:210-222 | the loop stops at the first value other than "0" |
| `FilterExpression.Expression.EvalMathOperator` | serverbrowser/filter/eval.go:246-267 | the loop folds the arguments from the left; ordering tests on ratings may be ignored |
| `FilterExpression.Expression.GetString` | serverbrowser/filter/eval.go:108-127 | the string value of a node |
| `FilterExpression.Expression.GetNumber` | serverbrowser/filter/eval.go:224-244 | the integer value of a node |
| `Cipher.XorTwice` | common/encryption.go:164-165 | masking a byte twice with the same two key bytes gives it back |
| `Cipher.HoleMoves` | common/encryption.go:125-146 | moving the place a held byte belongs to keeps the permutation, also when both places coincide |
| `Cipher.MovedPermutes` | common/encryption.go:118-151 | the four moves keep the first 256 bytes a permutation, wherever the registers point |
| `Cipher.MovedCycle` | common/encryption.go:118-151 | when the four places differ their bytes go round in a cycle and nothing else of the 256 moves; what the registers become |
| `Cipher.RotationMask` | common/encryption.go:152-165 | on every key that rotates the bytes, the two mask bytes are sums of the registers and multiples of the rotation |
| `Cipher.KnownByte` | common/encryption.go:118-170 | one byte encrypted by hand: the output and all five registers |
| `Cipher.EncryptedPermutes` | common/encryption.go:118-170 | every byte encrypted keeps the permutation |
| `Cipher.ByteRoundTrip` | common/encryption.go:118-170 | the mirrored step recovers the byte and ends in the sender's key |
| `Cipher.StreamRoundTrip` | common/encryption.go:110-116 | the mirrored loop recovers every message |
| `Cipher.StreamInjective` | common/encryption.go:110-116 | from one key, no two messages encrypt alike |
| `Cipher.StreamPermutes` | common/encryption.go:110-116 | every message encrypted keeps the permutation |
| `Cipher.PickUpTo` | common/encryption.go:71-108 | the rounds end after at most twelve, with a result from 0 to cnt |
| `Cipher.MaskIsLeast` | common/encryption.go:76-83 | the mask is the least number 2^n - 1 that is not below the count |
| `Cipher.PickedFirst` | common/encryption.go:85-105 | the position is the first, of at most twelve drawn by walking key and challenge, that is not above the count |
| `Cipher.SchedulePermutes` | common/encryption.go:49-69 | the key schedule leaves a permutation of 0 to 255 |
| `Cipher.RegistersAre` | common/encryption.go:64-68 | the five registers are five bytes of the shuffled key |
| `Cipher.MixedOne` | common/encryption.go:41-44 | a header byte is added, with one of the challenge, exactly at the place key and position say |
| `Cipher.MixedFirst` | common/encryption.go:41-44 | the first header byte replaces the first byte of the challenge |
| `Cipher.MessageRoundTrip` | common/encryption.go:7-39 | with the original challenge a receiver finds the payload start, the same first key and the data |
| `Cipher.Func5` | common/encryption.go:71-108 | the two loops compute the picked position and counters |
| `Cipher.Func4` | common/encryption.go:49-69 | the array ends as the scheduled key |
| `Cipher.EnctypexFuncX` | common/encryption.go:41-47 | the challenge is mixed in place with the header, then scheduled |
| `Cipher.InitEncrypt` | common/encryption.go:32-39 | key and payload start, with the byte-wide index arithmetic of the code |
| `Cipher.Func7e` | common/encryption.go:118-170 | the register moves in source order compute one encryption step, which `Cipher.MovedCycle`, `Cipher.RotationMask` and `Cipher.KnownByte` describe |
| `Cipher.Func6e` | common/encryption.go:110-116 | encrypts the array from a position on and leaves what is before it |
| `Cipher.EncryptTypeX` | common/encryption.go:7-30 | sends a header of 20 bytes and the encrypted data |
| `Yaz1.VerifyYaz1Data` | common/mario_kart_wii.go:492-565 | the nested loops with their skip of 0xFF groups give the specified verdict and consumed count |
| `Yaz1.AcceptedExact` | common/mario_kart_wii.go:492-565 | an accepted stream decodes to exactly the expected size from exactly the consumed prefix if and only if no long run met has a length byte above 0xED |
| `Yaz1.AcceptsIffExact` | common/mario_kart_wii.go:492-565 | without such a run, the check accepts exactly the streams that decode to the expected size and do not end inside a skipped group |
| `Yaz1.WideRunAccepted` | common/mario_kart_wii.go:535 | a five-byte stream accepted for 3 bytes that decodes to 259 |
| `Yaz1.GroupsAccepted` | common/mario_kart_wii.go:548-564 | an accepted walk stays within the data and the expected size |
| `Chunked.HexRoundTrip` | nhttp/chunked.go:243-262 | every 64-bit size prints to at most 16 digits and parses back |
| `Chunked.SizeLineRoundTrip` | nhttp/chunked.go:128-149 | a printed size line parses to its size and leaves the rest of the wire |
| `Chunked.DigitMeans` | nhttp/chunked.go:243-254 | the value of every hexadecimal digit in either case, and nothing else is a digit |
| `Chunked.SpelledSize` | nhttp/chunked.go:243-262 | up to sixteen digits of either case are read as the number they stand for |
| `Chunked.SizeRefused` | nhttp/chunked.go:243-262 | anything else is refused: for a byte that is no digit among the first seventeen, or for its length |
| `Chunked.SizeLineMeans` | nhttp/chunked.go:128-177 | a size followed by spaces or by an extension is read as the size; the extension is ignored |
| `Chunked.SizeLineRefused` | nhttp/chunked.go:128-142 | a line of more than 4095 bytes is too long, and a wire without a line end ends unexpectedly |
| `Chunked.DecodeMany` | nhttp/chunked.go:104-116 | reading part of a chunk is a prefix of what the coding holds |
| `Chunked.Reader.BeginChunk` | nhttp/chunked.go:45-59 | a new chunk or an error, without losing anything |
| `Chunked.Reader.Read` | nhttp/chunked.go:70-122 | for every wire and any amount buffered: what is returned plus what is still to come is what was to come; a read with room returns data or an error |
| `Chunked.ReadAll` | nhttp/chunked.go:70-122 | with any read sizes the bytes add up; the end is reached after enough reads |
| `Chunked.Writer.Write` | nhttp/chunked.go:203-227 | one chunk, and nothing for an empty write |
| `Chunked.WritesRoundTrip` | nhttp/chunked.go:203-232 | all writes and the closing line decode to the joined writes, the end and the untouched tail |
| `Chunked.SendAndReceive` | nhttp/chunked.go:70-232 | whatever the write and read sizes, the reader gets the joined writes, then the end, and leaves only the tail unread |
| `GameSpyMessage.ParseCommand` | common/gamespy_message.go:35-85 | the inner loop terminates without an index error on every text and reads the keys and values of one command |
| `GameSpyMessage.ParseGameSpyMessage` | common/gamespy_message.go:21-96 | the outer loop, on every text |
| `GameSpyMessage.CreateGameSpyMessage` | common/gamespy_message.go:102-120 | prints every value once in some order, the data of getpdr last |
| `GameSpyMessage.ParseOfPrinted` | common/gamespy_message.go:21-120 | printed one after the other, in any map order, commands are parsed back as they were if and only if each is plain or is the one of a final key alone |
| `GameSpyMessage.CommandsAreCarried` | common/gamespy_message.go:21-96 | whatever the text, the parser returns commands of these kinds only |
| `HandOver.Frontend.Register` | main.go:480-484 | counts the call and lists the connection |
| `HandOver.Frontend.CheckRegistered` | main.go:528-532 | a connection dropped in the meantime is not closed again |
| `HandOver.Frontend.Unregister` | main.go:534-536 | counts the call and unlists the connection |
| `HandOver.Frontend.ForwardCall` | main.go:486-538 | a forwarded call always has a client, and never starts while the backend is down |
| `HandOver.Frontend.FinishCall` | main.go:488-540 | the counter falls and never below zero |
| `HandOver.Frontend.ReturnFromShutdown` | main.go:605-623 | returns only with no call under way |
| `HandOver.Frontend.ConnectClient` | main.go:421-440 | the client is replaced only while the backend is down, with no call under way |
| `HandOver.Frontend.CheckState` | main.go:626-652 | busy when unlocked; another state drops all connections |
| `HandOver.Frontend.Step` | main.go:477-652 | every step keeps the invariant; the client changes only from down; nothing is closed while down; only a VerifyState drops connections, all of them or none, and records exactly those |
| `HandOver.Frontend.Run` | main.go:477-652 | in every run no call is under way while down and calls go to the client in use; each connection is closed at most once; one still open is registered exactly if no reset dropped it; one that is over was closed, dropped or refused; a dropped one is closed exactly when a reset hit its closing section |
| `HandOver.Frontend.DroppedAndClosed` | main.go:528-538 | a run in which a reset between the check and the removal closes a dropped connection |
| `Natneg.PairsAreMutual` | natneg/connect.go:14-32 | with two free clients each new connection goes both ways |
| `Natneg.Session.SendConnectRequests` | natneg/connect.go:13-61 | only free clients are paired, never a pair with results both ways, and no two free clients remain that could be |
| `Natneg.Session.SendFrom` | natneg/connect.go:19-60 | the inner loop leaves its sender nobody to send to |
| `Natneg.Session.HandleInit` | natneg/init.go:13-99 | the step of an init packet: refused packets change nothing; else the sender is known under its game with exactly the addresses told so far, and once it has both all free clients are paired |
| `Natneg.Session.RecordResult` | natneg/report.go:33-45 | the result goes to the client connected to, the client is free again, and the outcome is told when the other has reported |
| `Natneg.Session.HandleReport` | natneg/report.go:12-49 | the result goes to the client connected to, the reporter is free, all free clients are paired again, and QR2 is told exactly when both have reported on each other |
| `Natneg.Session.HandlePacket` | natneg/main.go:182-295 | every packet makes the session take the step the specification gives it: clients, addresses, results, connections, acknowledgements and the outcome |
| `Natneg.ToldWhenSettled` | natneg/report.go:33-45 | QR2 is told exactly when both clients have a result of each other |
| `Natneg.StillNoneWaiting` | natneg/connect.go:13-61 | no step leaves two free clients that could be paired |
| `Natneg.Session.Run` | natneg/main.go:182-295 | every run is a sequence of the steps of its packets; no result is lost, and a pair that had reported both ways and was not connecting is never paired again |
| `Natneg.RunMeets` | natneg/main.go:182-295 | after every run exactly the clients are known that the packets introduced, one after the other, and nobody is left waiting |
| `Natneg.Introduces` | natneg/init.go:13-99 | in a run of one game a client is known exactly if it sent a sensible init packet, and each address exactly if one of its packets told it |
| `Natneg.NobodyLeftOut` | natneg/connect.go:13-61 | in every run of one game, of two clients that have told both addresses one is connecting, unless each has reported on the other |
| `Natneg.Server.HandleConnection` | natneg/main.go:182-295 | a packet creates its session when there is none and makes it take the step of that packet; address checks, natify requests and packets of another version change nothing; every other session and its clients stay unchanged |
| `Natneg.Server.CloseSession` | natneg/main.go:297-332 | the session goes, and exactly the clients still connecting are told |

## Left out

- The inverse law of the field is a hypothesis (`Curve.InverseLaw`), stated as the products with `Inv` being one; that the trinomial is irreducible is not proved by the code either.
- FieldBytes.EltInv: on unreduced bytes only the reduction of the result is stated: the squarings read all 240 bits and the products the lower 233, so it is a power of no one element.
- FieldBytes.ItohTsujii: on other byte strings only the length of the result is stated, for the same reason.
- Curve.PointDouble: on unreduced coordinates, which the signature check does not exclude, only the length of the result is stated, since inversion is no inversion there.
- Curve.PointAdd: the same; also, the code compares bytes, which may differ when the points do not.
- Curve.Chord: the same.
- Curve.PointMul: the same.
- Associativity of point addition is not proved, so `Curve.TimesIsMultiple` names the multiple by halving and not as a repeated sum; big-integer inverses, hashes and certificates are not modelled.
- In QR2 the challenge, endianness and exploit fields, the profile checks inside `checkValidRating` (a parameter), creation times, race results, teams and kicks are not modelled, nor are the requests that only write other server fields (`ProcessNATNEGReport`, `ProcessUSER`). A run is made of the requests of `Qr2.Request`.
- Random names and IDs are parameters or arbitrary choices; times are parameters.
- Qr2.Tables.ExpireSessions: models which sessions `GetSessionServers` removes, not the list with averaged ratings it returns.
- Qr2.Tables.SetSessionData: requires payload keys as the heartbeat parser delivers them, without empty and server-side names, and an unused search ID to draw.
- Qr2.Tables.SetProfileID: the order of the login assignment and the removal of the displaced session inside the function, and its unlocked call while a message is sent, are not modelled. A login's public address stands for the part before the port, and its conversion to the session field is not modelled.
- Qr2.Tables.ProcessResvOK: the `+conn_` entries are not modelled; the join index is overwritten before the old group is left, so the code deletes them under the new index.
- Qr2.Tables.ProcessClientMessage: starts with both sessions live; of the lock sections before it in `SendClientMessage` only the profile claim is modelled (`Qr2.Tables.ClaimProfile`); the acknowledgement timeout, and the unlocking while GPCM is told of an error are not modelled.
- Qr2.Tables.ProcessGPResvOK: requires equal addresses for equal profile IDs, since GPCM has one address for a profile.
- The address mismatch branch of `setSessionData` cannot be taken: keys determine addresses (`Qr2Objects.LookupKeyInjective`). The join index is not bounded to the width of the source's integer.
- Filter function calls are not modelled: parsing stops with the verdict that one was found. `like` is a parameter of the evaluator, since it uses a regular expression. Characters stand for the runes of the text, and the letter and digit tables beyond ASCII are parameters; invalid UTF-8 is not modelled.
- FilterMeaning.FilterSelects: states the meaning of lists joined by "and"; `or`, arithmetic and mixed levels are parsed and evaluated but their grouping is not compared with any precedence, which the parser does not follow.
- `filterSelfLookup` is not modelled.
- In the match commands, logging and cloning are not modelled.
- GameSpyMessage.ParseGameSpyMessage: the branch for `data` after `length` of the game statistics server is not modelled; it takes the backslash before the final key.
- Yaz1.VerifyYaz1Data: its log messages, and the other fields of the ghost file around it, are not modelled.
- Chunked.Reader.Read: a source read returns at least one byte before the end; errors of the source other than its end, and flushing writers, are not modelled. The buffer has the default size of 4096 bytes.
- Cipher.EncryptTypeX: the clock is a number without bound, of which only low bytes are used; the key is not empty and the challenge has eight bytes, as at its only caller.
- HandOver.Frontend.Run: one waiter per shutdown, as with the integrated backend; the separate backend's reload, which starts two, process start and exit, and writes to the connections are not modelled. A backend announcing itself ready twice is one announcement.
- Natneg.Session.HandleReport: packets are taken as parsed; addresses are never empty. Retransmission of connect requests, the reply packets, and what QR2 does with an outcome are not modelled.
- Natneg.Session.SendConnectRequests: with three or more free clients the pairs need not be mutual, since the inner loop does not look at its sender again; `Natneg.PairsAreMutual` covers two.
- Sockets, timers, the database, HTTP headers, TLS and the gob encoding are not modelled.
