# gnhast, verified models of its parsers, protocols and codecs

gnhast collects readings from home-automation devices. Collectors register devices with the server
`gnhastd` over a line protocol, clients subscribe to them, alarms and device groups are replicated
between programs, and some collectors read JSON, CSV and binary messages. This project models the
parts of it that are hardest to get right and proves what they are for:

- **JSON** (`JsonLex`, `JsonRun`, `JsonParser`, `JsonStrings`, `JsonModes`, `JsonLaminar`, `JsonLinks`,
  `JsonLinkedModes`, `JsonPrinter`, `JsonRoundTrip`, `JsonLinkedRoundTrip`, `JsonLookup`, `JsonKeys`, `JsonMembers`,
  `JsonArrays`, `JsonNested`, `JsonFields`): the jsmn tokenizer as a class that advances its fields and fills the
  token array, shown equal to a step function; whole-run results about that function (parsing undoes printing, strings
  and errors, resumption, count-only mode, nesting, the parent-link closer); and the search helpers on token arrays.
- **Publish/subscribe server** (`PubSub`, `PubSubSafety`, `PubSubEffects`, `PubSubServer`, `FeedSchedule`,
  `Divisors`): clients, devices, watchers and timed feeds as a state machine with an invariant over every run, and what
  each command does in it.
- **Replicated tables** (`AlarmTable`, `AlarmMirror`, `AlarmWanted`, `AlarmExact`, `AlarmServer`; `GroupGraph`,
  `GroupEditor`, `GroupReplay`, `GroupEdits`, `CommaLists`): the alarm table mirrored over first-in-first-out
  connections, and the device-group graph saved, replayed and edited. Both go through the printed lines: what a
  receiver gets is what it reads from them.
- **Wire format** (`WireWords`, `WireNames`, `WireTable`, `WireArgs`, `WireItems`, `WireSpoilt`, `WireLines`,
  `WireGroups`, `WireAlarms`, `Decimals`): splitting of lines, typed arguments, the printers, and exactly which
  values parsing gives back.
- **CSV** (`CsvScan`, `CsvParser`, `CsvRoundTrip`), **alarm rules** (`AlarmRules`, `AlarmRuns`,
  `AlarmLatches`), **CRC-8** (`Crc8`, `BitStrings`) and **base64** (`Base64`).

Code that works in place is modelled in place: classes with `modifies` clauses and loops, each proved equal to
a function of the old state. The theorems are lemmas about those functions, over every input, run or reachable
state.

## Where the code decides

Some results say exactly when the code does what one would expect of it:

- The build of jsmn with parent links and the one without agree on an input exactly if the input shows them no
  stray closing bracket (`BuildsAgree`, `BuildsDiffer`). The Makefiles build with parent links and token links.
- The search for the nth member of an array finds it exactly if the members before it hold no nested container
  (`NthMemberIsItem`, `NestedMemberMissed`); an index one past the last member is not refused, any greater one is
  (`NthMemberRefused`, `OneMemberTooMany`). The answer is an index behind all tokens exactly for the index past the
  last member of a flat array that is the last thing parsed (`IndexPastTokens`); `jtok_find_token_val_nth_array` then
  reads that token (common/jsmn_func.c:275). An object's `size` counts keys and values.
- The value of a key is found exactly if the first string or key that is spelled like it is that key: an earlier
  string value spelled like it hides it (`ParsedMemberFound`, `KeyHidden`).
- A register command keeps every device's `collector` a client that has the device on its queue exactly if no
  other client has the device (`RegisterCollectors`, `RunCollectors`, `TwoCollectors`).
- Re-arming a client's timer keeps the next firing of a feed within `rate + timer_gcd` of the last exactly if the feed
  is not overdue at that moment (`GapAfterRearm`); repeating the command before each tick delays an overdue feed again.
- The printers put values on the line as they are, without escaping. A bare value comes back exactly if it has no blank
  and no quote; a quoted one exactly if it has no quote, or one quote at its end, and no backslash at its end before
  that (`ReadsBackBare`, `ReadsBack`), whatever else is on the line; so a line comes back exactly if all its values do
  (`CommandExactly`), and a quoted value that does not is not given by any other argument of the line either
  (`NeverGiven`). A value `x"y` takes in the rest of the line (`RestSwallowed`): the registration of a device loses its
  type (`DeviceNameSwallows`), a group its children and members (`NameSwallowsLists`), an alarm its severity and its
  channels (`TextSwallowsNumbers`). Quoting a word *with* escapes gives it back exactly if it does not end in a
  backslash (`SplitQuoted`, `BackslashLost`).
- A listener's alarm table stays exact only as long as severities are positive, zero or left out, new alarms have
  a channel, and texts are of that kind (`VisibleStep`, `RegularIsNeeded`, `NoChannelUntold`, `QuoteUntold`).
- The alarm of a rule is on the server as the rule has it exactly if its text is of that kind (`SetTakesEffect`); one
  whose text is `x"y` is on the server from the first clearing message on and is never cleared (`QuoteRuleStuck`).
- A saved group is made on the server exactly if its name is of that kind (`LineMakesGroup`, `QuoteLosesLists`).
- CSV rows come back exactly if no field has a carriage return or a NUL (`RowsComeBack`, `ReturnLost`). A file that
  ends right after a quote opening a field that is not the first of its row makes the reader write in front of its
  buffer (`OverrunHappens`). The files on which that happens are exactly those that a scan with five flags finds
  (`OverrunExactly`); the methods of the reader require that the scan does not find it.
- The header of the CRC code names 0x02 as the initial value while its program starts from 0xb5; the two are the
  direct and the augmented form of the same CRC (`ChecksumIsCrc8`).

## Model

| member | source | states |
|---|---|---|
| JsonParser.Parser.Parse | jsmn/jsmn.c:158-283 | the in-place parser with any token array, full or not, and with none: tokens, fields and return code are those of the step-by-step run, or of the counting run |
| JsonParser.Parser.ParsePrimitive | jsmn/jsmn.c:41-86 | the loop over a primitive stops at the position, token and error code that the lexical grammar gives, and restores the position on NOMEM, INVAL and PART |
| JsonParser.Parser.ParseString | jsmn/jsmn.c:91-153 | the loop over a string, escapes and hexadecimal digits included, stops where the lexical grammar says |
| JsonParser.Parser.CloseBracket | jsmn/jsmn.c:208-232 | the backward scans close the last open token if it is of the right kind and find the one before it as `toksuper`; otherwise INVAL |
| JsonParser.Parser.Turn | jsmn/jsmn.c:165-273 | one turn of the main loop is one step of the state function, including the error that leaves the state as it was |
| JsonStrings.StringFound | jsmn/jsmn.c:91-153 | the scan of a string finds its closing quote if and only if what is before it has no quote, no NUL and only the escapes of RFC 8259, with four hexadecimal digits behind a `u`, and the length given is not reached |
| JsonStrings.StringRefused | jsmn/jsmn.c:120-148 | it answers INVAL if and only if it comes to a backslash in front of something else; all other failures are PART, a string that is cut off |
| JsonStrings.PrimitiveFound | jsmn/jsmn.c:41-86 | the scan of a primitive ends at the first delimiter or at the end, if and only if there is no control character and no byte above 126 before |
| JsonStrings.RunStrings | jsmn/jsmn.c:158-283 | after any call, failed or not, every string token stands between quotes and has such a body |
| JsonStrings.WhyStopped | jsmn/jsmn.c:158-283 | a call completes only at the end and with no container open; otherwise the code is given by what it stands at: PART at the end with a container open or in a cut string, NOMEM at a value without a token for it, INVAL at a bad string or primitive or a bracket that does not fit the last open container |
| JsonRoundTrip.ParseUndoesPrint | jsmn/jsmn.c:158-283 | any JSON value, printed with any legal white space, parses with enough tokens to exactly the pre-order tokens of its tree: types, spans, sizes, and the key index of every object value |
| JsonRoundTrip.RunValue | jsmn/jsmn.c:165-273 | a printed value inside any context adds its tokens behind those there are and counts once in the container around it |
| JsonPrinter.ScalarsArePlain | jsmn/jsmn.c:244-269 | every number of RFC 8259 section 6, and the three literals, is a text the tokenizer takes as one primitive |
| JsonModes.MoreRoom | jsmn/jsmn.c:8-25 | a run that does not stop for lack of tokens is the same with more of them |
| JsonModes.Resume | jsmn/jsmn.c:74-78 | going on after NOMEM with more tokens gives what one run with the larger array gives |
| JsonModes.ResumeRepeatedly | jsmn/jsmn.c:108-112 | the same for any sequence of such stops: state, tokens and outcome equal those of one run with the last size |
| JsonModes.ResumedCount | jsmn/jsmn.c:275-282 | a call that resumes after NOMEM and completes returns how many tokens it added, so that the calls together give the count |
| JsonModes.CountIsExact | jsmn/jsmn.c:275-282 | if some run completes, counting without tokens returns the same number c, and a run with n tokens returns c if n >= c and NOMEM otherwise |
| JsonModes.CountSuffices | jsmn/jsmn.c:172-175 | as many tokens as counting reports are enough not to run out, on every input that can be counted |
| JsonLaminar.RunLaminar | jsmn/jsmn.c:165-273 | on arbitrary bytes, completed or failed: starts strictly increase, every span lies in its parent's, `toksuper` is the last open token, each size is the number of children |
| JsonLaminar.NestedOrDisjoint | jsmn/jsmn.c:208-232 | closed spans are nested or disjoint |
| JsonLaminar.SizesAccountForAllTokens | jsmn/jsmn.c:176-178 | the sum of all sizes and the tokens at the root are all the tokens |
| JsonLaminar.OpenStack | jsmn/jsmn.c:222-232 | the open tokens are a stack: the parent of an open token is the open token before it |
| JsonLaminar.ParentsDetermined | jsmn/jsmn.c:165-273 | the spans determine the parent of every token |
| JsonLinks.WalkParents | jsmn/jsmn.c:198-207 | the loop up the parent links is the recursive walk, on every well-linked token array |
| JsonLinks.WalkFindsLastOpen | jsmn/jsmn.c:193-207 | from any token behind the last open one, the way up the parents leads to it |
| JsonLinks.ClosersAgree | jsmn/jsmn.c:193-233 | the two closers give the same code, tokens and `toksuper` unless there are tokens and none is open |
| JsonLinks.BuildsAgree | jsmn/jsmn.c:193-233 | over whole runs, from any laminar state, the two builds agree if and only if the text shows no stray closing bracket |
| JsonLinks.BuildsAgreeFromStart | jsmn/jsmn.c:289-293 | the same from the initial state, the condition being one on the text and the number of tokens |
| JsonLinks.BuildsDiffer | jsmn/jsmn.c:199-207 | on `1]` one build fails and the other completes |
| JsonLinks.CompleteWithoutStray | jsmn/jsmn.c:193-233 | a run that completes meets no stray closing bracket, so the builds agree on it |
| JsonLinkedRoundTrip.LinkedParseUndoesPrint | jsmn/jsmn.c:193-207 | the build with parent links undoes printing as well: any value, any white space, exactly its tokens |
| JsonLinkedModes.LinkedResume | jsmn/jsmn.c:74-78 | going on after NOMEM gives what one run with the larger array gives, in the build with parent links |
| JsonLinkedModes.LinkedMoreRoom | jsmn/jsmn.c:8-25 | tokens that were not needed make no difference in that build |
| JsonLinkedModes.LinkedCountIsExact | jsmn/jsmn.c:275-282 | counting is exact in that build, also for inputs that complete only there |
| JsonLookup.FindTokenLoop | common/jsmn_func.c:153-171 | the loop finds the first string token that is spelled like the name, or -1 |
| JsonLookup.TokenValLoop | common/jsmn_func.c:184-197 | the loop finds the first token whose key is the name's token, or -1 |
| JsonKeys.ValueOrNothing | common/jsmn_func.c:184-197 | on any tokens: the answer is the first token behind the first string with the spelling that is linked to it, and -1 if and only if there is none |
| JsonKeys.NothingSpelled | common/jsmn_func.c:153-171 | without a string of that spelling the answer is -1 |
| JsonKeys.ValueBehindKey | common/jsmn_func.c:184-197 | a value of any kind, behind the first string with the spelling and linked to it, is the answer |
| JsonKeys.MemberFound | common/jsmn_func.c:184-197 | for any object among the tokens, the answer for a key that nothing before is spelled like is the first token of that member's value |
| JsonKeys.ParsedMemberFound | common/jsmn_func.c:184-197 | parsing a printed object and looking up a key that no string or key before it is spelled like gives the tokens of its value |
| JsonKeys.KeyHidden | common/jsmn_func.c:153-171 | if a string value of an earlier member is spelled like the key, the search finds nothing |
| JsonLookup.NthMemberLoop | common/jsmn_func.c:227-251 | for any index, negative ones included, the loop hops over each member by its size, reads only the first `maxtoken` tokens, and answers -1 for anything that is not an array or is too short |
| JsonLookup.FindPairLoop | common/jsmn_func.c:261-288 | the inner search stays within the member and answers with the value of the first key that is spelled like the name, or -1 |
| JsonMembers.NthMemberIsItem | common/jsmn_func.c:227-251 | in a named array, the answer for k is the token of the k-th member if and only if the members before it are flat |
| JsonMembers.NthMemberRefused | common/jsmn_func.c:236-250 | in a named array, flat or not, a request is refused if and only if it is for an index greater than the size |
| JsonMembers.OneMemberTooMany | common/jsmn_func.c:240-249 | asking for member `size` of an array of flat members gives the index behind the array's tokens |
| JsonMembers.IndexPastTokens | common/jsmn_func.c:240-250 | for any index, the answer is the number of tokens if and only if the index is that behind the last member, all members are flat, and the array is the last thing parsed |
| JsonNested.NestedParsed | common/jsmn_func.c:227-251 | the tokens of the text `{"a":[[[1]],2]}`, on which the search goes wrong |
| JsonNested.NestedMemberMissed | common/jsmn_func.c:243-249 | asked for member 1 of that array, the `2`, the search answers with the token of the `1` inside member 0 |
| JsonMembers.HopsFitInArray | common/jsmn_func.c:243-249 | for any members, flat or not, the hops stay within the array's own tokens |
| JsonArrays.ParsedHopsFit | common/jsmn_func.c:227-251 | the tokens of every value meet what the search needs: sizes are known and no search in any array at any depth leaves the tokens |
| JsonFields.FieldOfNthMember | common/jsmn_func.c:261-288 | for a k-th member that is an object of leaves, the value found is that of its first pair with the key, or -1 |
| Divisors.GcdDivisors | common/common.c:293-298 | gcd(a, b) divides both and every common divisor divides it |
| Divisors.IntGcdMagnitude | common/common.c:293-298 | for negative numbers as well, the size of the result is the gcd of the sizes |
| FeedSchedule.AddFeedKeepsGcd | gnhastd/cmdhandler.c:820-846 | after every feed command the timer interval is the gcd of all the client's feed rates |
| FeedSchedule.TimerIsGreatest | gnhastd/cmdhandler.c:828-840 | it divides each rate and is the greatest number that does |
| FeedSchedule.QuietUntilDue | gnhastd/cmdhandler.c:768-785 | over any number of punctual ticks a feed is quiet until its rate has passed |
| FeedSchedule.GapIsRate | gnhastd/cmdhandler.c:768-785 | a feed that has fired at a tick of this timer fires next exactly `rate` seconds later |
| FeedSchedule.NeverOverdue | gnhastd/cmdhandler.c:768-785 | between two punctual ticks no such feed is overdue |
| FeedSchedule.GapAfterRearm | gnhastd/cmdhandler.c:828-846 | after the timer is armed anew a feed fires at the first tick at which its rate has passed, and less than `rate + timer_gcd` after it last fired if and only if it was not overdue when the timer was armed |
| PubSubEffects.FeedAdds | gnhastd/cmdhandler.c:793-846 | an accepted feed command adds one feed at the end of the client's queue, with the device, the rate, the scale asked for or else the device's, and never fired; the timer is armed, at the rate if it was not armed before, and if all rates are positive it divides the rate |
| PubSubEffects.FeedIsSent | gnhastd/cmdhandler.c:768-846 | after the command, at the first punctual tick at which the clock has reached the rate, the device is among the lines sent, at that scale |
| PubSubEffects.TickSends | gnhastd/cmdhandler.c:768-785 | the lines of a tick are those of the feeds before, one for a feed if and only if its rate has passed, at the feed's scale, and those of the feeds behind |
| PubSubEffects.TickStamps | gnhastd/cmdhandler.c:774-784 | a tick counts its lines, stamps the feeds whose rate has passed with the time, and changes nothing else |
| PubSubSafety.StepSafe | gnhastd/cmdhandler.c:377-467 | accept, register, client, cfeed, feed of any rate, update, tick and close each keep the invariant on queues, flags, watcher entries, counters and, where all rates are positive, timers |
| PubSubSafety.RunSafe | gnhastd/netloop.c:177-252 | in every reachable state a device's queue flag is set iff it is on exactly one live client's queue, every watcher is live, and `watched` is the number of watcher entries |
| PubSubSafety.CfeedEntries | gnhastd/cmdhandler.c:856-879 | a cfeed adds one watcher entry of its client to the device named and changes no other count of entries |
| PubSubSafety.NotifyReachesEach | gnhastd/cmdhandler.c:256-260 | an update sends each client one message for each watcher entry that names it |
| PubSubEffects.UpdateReaches | gnhastd/cmdhandler.c:170-262 | an update of a known device brings each client one message for each of its watcher entries on it, stores the value given, and changes no other device |
| PubSubEffects.CfeedThenUpdate | gnhastd/cmdhandler.c:170-262 | in any run, once a client has asked for changes of a known device and until its connection ends, every update of that device by anybody brings it a message |
| PubSubEffects.RegisterMakes | gnhastd/cmdhandler.c:377-467 | an accepted register command gives the device the command's name and the low bytes of its codes and scale, keeps data and watchers it had, and puts it on the client's queue unless it is on one |
| PubSubEffects.RegisterRefused | gnhastd/cmdhandler.c:411-426 | it is refused if and only if there is no uid, or the device is new and lacks a name or has a type, protocol or subtype whose low byte is zero |
| PubSubEffects.NameTracks | gnhastd/cmdhandler.c:889-946 | a client that names itself, other than a handler, has a tracking device that is marked as working, made if need be |
| PubSubEffects.NameIgnored | gnhastd/cmdhandler.c:905-913 | without a name, or for a handler, nothing is made |
| PubSubEffects.CloseMarks | gnhastd/netloop.c:177-252 | when a client is gone its tracking device is marked as bad and all other devices keep their data; collectors and flags change only for its own devices |
| PubSubEffects.CloseKeepsEntries | gnhastd/netloop.c:222-233 | its watcher entries are gone and every other client keeps all of its own |
| PubSubSafety.CloseLeavesNothing | gnhastd/netloop.c:177-252 | after a close no queue and no watcher entry names the client, and its devices are free |
| PubSubSafety.ShutdownEmpties | gnhastd/netloop.c:452-463 | shutting down ends with no client, no watcher entry and no device on a queue |
| PubSubSafety.RegisterCollectors | gnhastd/cmdhandler.c:437-462 | a register command keeps the collectors true if and only if no other live client has the device |
| PubSubSafety.RunCollectors | gnhastd/cmdhandler.c:437-462 | over any run the collectors are true throughout if and only if every register command was of that kind |
| PubSubSafety.TwoCollectors | gnhastd/cmdhandler.c:437-462 | a run of four steps that is not of that kind: two clients register the same device, and its collector has it on no queue |
| PubSubServer.Server.CmdRegister | gnhastd/cmdhandler.c:377-467 | the handler's assignments make the state the model step says, with the answer 0 or -1 |
| PubSubServer.Server.CmdFeed | gnhastd/cmdhandler.c:793-846 | likewise for a feed of any rate: the wrapped device, and the timer by the fold of gcd over the queue |
| PubSubServer.Server.CmdCfeed | gnhastd/cmdhandler.c:856-879 | the invariant is kept, and if the command is accepted the client has one watcher entry more on the device |
| PubSubServer.Server.CmdUpdate | gnhastd/cmdhandler.c:170-262 | the walk over the watchers makes the state of the model step, in which each entry brings one message |
| PubSubServer.Server.FeedDataCb | gnhastd/cmdhandler.c:768-785 | a tick sends exactly the feeds for which the truncated quotient of elapsed time and rate is positive, in queue order and each at its own scale, and stamps those and no other |
| PubSubServer.Server.BufErrorCb | gnhastd/netloop.c:177-252 | the unlinking loops make the state that a close says, and the complaint that a client is still being watched is never made |
| PubSubServer.Server.NetworkShutdown | gnhastd/netloop.c:452-463 | the loop over the first client ends, with no client left |
| PubSubServer.Server.AcceptCb | gnhastd/netloop.c:263-295 | the invariant is kept; the new client has no devices and no feeds, and no watcher entry names it |
| AlarmTable.Table.FindByUid | common/alarms.c:76-86 | the search gives the index of the alarm, or -1 |
| AlarmTable.Table.UpdateAlarm | common/alarms.c:97-145 | inserting, editing and removing in the list is updating the map it stands for; one alarm per uid is kept |
| AlarmTable.ViewUpdate | common/alarms.c:97-145 | the list operations refine the map operations, and the returned alarm is the map's entry |
| AlarmTable.KnownAlarm | common/alarms.c:97-145 | for a known alarm severity 0 removes it, -1 keeps its severity, no text keeps its text, and channel 0 stands for the generic channel |
| AlarmTable.UnknownAlarm | common/alarms.c:97-145 | an unknown alarm is made, as given, if and only if there is a text and a severity; no other alarm changes |
| AlarmMirror.RunInv | gnhastd/cmdhandler.c:1222-1349 | any interleaving of connects, commands and deliveries, in which each alarm set has a uid and a text that survive their line, keeps every client's table, after it has read the printed lines on their way, in step with the server's |
| AlarmMirror.Mirrored | gnhastd/cmdhandler.c:1279-1349 | in such a run, for any threshold and channels: after listen and dump every matching live alarm is read by the client exactly and every mirrored uid is live |
| AlarmMirror.InboxArrives | common/gncoll.c:720-742 | in such a run what is written to a client is read off as the lines that were written, one by one |
| AlarmMirror.ListenThenDump | gnhastd/cmdhandler.c:1279-1349 | connecting, listening to everything and dumping brings a client there and keeps it there, whatever others do and whatever is delivered in between and afterwards |
| AlarmWanted.SetTells | gnhastd/cmdhandler.c:1247-1266 | a setalarm tells a client the alarm as it now is if and only if the client listens, its severity is at least that asked for and they have a channel in common; it tells it of a clearing if and only if there is no such alarm now and the client listens from a positive severity on; nothing else |
| AlarmWanted.DumpSends | gnhastd/cmdhandler.c:1308-1349 | the lines of a dump are those of the alarms before, one for an alarm if and only if severity, channel and uid are those asked for, and those of the alarms behind |
| AlarmWanted.OnlyWhatIsWanted | gnhastd/cmdhandler.c:1222-1349 | for a client that connects and listens for any severity and channels, over any run in which it does not ask for more: every line on its way to it clears an alarm or is about a severity and a channel it asked for |
| AlarmExact.MirroredExactly | common/alarms.c:153-198 | a client that listens to everything and has dumped has, after reading the lines on their way, exactly the server's table, in every run within the rules |
| AlarmExact.VisibleStep | gnhastd/cmdhandler.c:1222-1269 | every alarm keeps a positive severity and a channel if and only if the command's severity is positive, zero or left out for a known alarm, and a new alarm has a channel |
| AlarmExact.RegularIsNeeded | gnhastd/cmdhandler.c:1222-1269 | for any text, quotes and backslashes included, a command keeps an exact mirror exact if and only if it is within the rules: severity and channel as above, and a text that survives its quotes |
| AlarmExact.NoChannelUntold | gnhastd/cmdhandler.c:1222-1269 | a new alarm on channel 0, set after a client has listened and dumped, is missing from its mirror |
| AlarmExact.QuoteUntold | common/gncoll.c:733-738 | a new alarm with any text `x"y`, set after a client has listened to everything and dumped, is on the server and not in the client's table |
| AlarmServer.Server.CmdSetAlarm | gnhastd/cmdhandler.c:1222-1269 | the handler's walk over the clients appends to each connection the line that the model says |
| AlarmServer.Server.CmdListenAlarms | gnhastd/cmdhandler.c:1279-1299 | sets the client's threshold and channels; what is on its way to it, its table, all other clients and the alarm table are unchanged |
| AlarmServer.Server.CmdDumpAlarms | gnhastd/cmdhandler.c:1308-1349 | sends the selected alarms in the order of the table |
| GroupEditor.Editor.RegisterChildGroups | gtk-gnhast/callbacks.c:121-134 | the recursion with its flags, on any acyclic graph, writes the lines of the groups that the functional visit lists |
| GroupEditor.Editor.OnSave | gtk-gnhast/callbacks.c:142-160 | the save action ends with all flags cleared and exactly the lines of the groups of the functional save written, none for a group without a name |
| GroupGraph.VisitSends | gtk-gnhast/callbacks.c:121-134 | a visit sends each descendant once, after all its children, and nothing that is not below it in rank |
| GroupGraph.SaveSends | gtk-gnhast/callbacks.c:142-160 | a save sends every group once and after all its children |
| CommaLists.StrtokJoin | gnhastd/cmdhandler.c:527-530 | taking a comma-separated list apart gives its entries back |
| CommaLists.StrtokLoop | gnhastd/cmdhandler.c:527-530 | the repeated calls give the nonempty stretches between commas, for any string |
| GroupReplay.GroupServer.CmdRegisterGroup | gnhastd/cmdhandler.c:475-601 | the handler, with its linking and unlinking loops, makes the graph that the model step says |
| GroupReplay.RegisterName | gnhastd/cmdhandler.c:503-524 | a command leaves its group with the name it gives, or with the old one if it gives none; it makes its group if and only if that is new and it gives a name, and makes no other |
| GroupReplay.ReplayRebuilds | gnhastd/cmdhandler.c:475-601 | printed lines that come children first, read as the server reads them, rebuild each group with its name, children, members and number of parents |
| GroupReplay.SaveThenReplay | common/devices.c:363-392 | saving any acyclic graph without duplicate links, with plain uids and with names that survive their quotes, to a server that has the devices but no groups: from the text written the server reads lines that give it the same groups, members and parent counts |
| GroupReplay.LineMakesGroup | gnhastd/cmdhandler.c:475-601 | the printed line of a group with any name makes that group, with its links, on a server that has the children if and only if the name survives its quotes |
| GroupReplay.QuoteLosesLists | common/gncoll.c:420-468 | for any name `x"y` the server makes a group without children and members, whose name has taken in the lists |
| GroupEdits.RegroupedExactly | gnhastd/cmdhandler.c:526-562 | a group list replaces the children: afterwards they are exactly the listed groups that exist, other groups keep theirs, and every `subgroup` is still the number of parents |
| GroupEdits.RememberedExactly | gnhastd/cmdhandler.c:565-598 | a device list replaces the members: afterwards they are exactly the listed devices that exist |
| GroupEdits.RegisterKeeps | gnhastd/cmdhandler.c:475-601 | every register-group command, accepted or not, keeps links sound, without duplicates, and the parent counts exact |
| GroupEdits.ReplayKeeps | common/devices.c:363-392 | so does any sequence of lines, whatever is in them, from an empty table |
| WireWords.ParseNetcommand | common/netparser.c:316-376 | the pointer loops over the line give the words of the recursive definition, and the copy never leaves its buffer |
| WireWords.Scanner.CopyQuoted | common/netparser.c:332-350 | the loop over a quoted stretch, with the step back after a backslash that escapes nothing |
| WireWords.SplitQuoted | common/netparser.c:316-376 | a line of quoted words splits into those words if and only if none of them ends in a backslash |
| WireWords.BackslashLost | common/netparser.c:332-350 | the word of one backslash, quoted, is read as a word of one quote |
| WireNames.ReadsBack | common/netparser.c:316-376 | a value put between quotes as it is, quotes and all, is read back if and only if it has no quote, or one at its end, and no backslash at the end before that, whatever follows on the line |
| WireNames.ReadsBackBare | common/netparser.c:316-376 | a value without quotes around it is read back if and only if it has no blank and no quote, whatever follows on the line |
| WireTable.Bsearch | common/netparser.c:266-268 | searching the sorted table by halving finds the one argument of that name, or none if no argument has it |
| WireTable.TableInOrder | common/netparser.c:215-218 | the sorted table of 56 names is strictly increasing by strcmp |
| WireTable.NamesDiffer | common/netparser.c:55-112 | no two arguments of the table have the same name |
| WireTable.FindArgById | common/netparser.c:150-158 | the first row with this id, or -1 |
| WireArgs.FillArgs | common/netparser.c:229-307 | filling the array of one entry per word yields exactly the arguments in order, followed by the end mark, always within the array |
| WireArgs.FindArg | common/netparser.c:386-394 | the first argument with this id in front of the end mark, or -1 |
| Decimals.AtoiSigned | common/netparser.c:281-283 | atoi gives back what `%d` printed if and only if the number fits an int |
| Decimals.StrtoulUnsigned | common/netparser.c:284-287 | strtoul gives back what `%u` printed if and only if the number fits 32 bits |
| Decimals.StrtolSigned | common/netparser.c:288-295 | strtoll gives back what was printed if and only if the number fits 64 bits; beyond, the end of the range |
| WireLines.MeantLong | common/netparser.c:288-295 | an argument of the long type means the number printed if and only if it fits 64 bits |
| WireItems.CommandParses | common/netparser.c:229-376 | any command with readable arguments, quoted or not, with one or more blanks between and behind them, is split and parsed into the typed arguments it was printed from |
| WireItems.NamedInAnyCase | common/netparser.c:250-268 | an argument may be named in small or capital letters, mixed in any way |
| WireItems.NoArgument | common/netparser.c:251-305 | a word without a colon, or with a name that is no argument's in any case, is skipped |
| WireItems.EmptyWordEnds | common/netparser.c:249 | an empty word ends the arguments, whatever comes behind it |
| WireItems.CommandExactly | common/netparser.c:229-376 | a command comes back as the typed arguments it was printed from if and only if each of its values can be read back |
| WireSpoilt.NeverGiven | common/netparser.c:332-350 | a quoted value that cannot be read back is not the value of any argument of its kind in the line, not even of one that begins inside it |
| WireSpoilt.RestSwallowed | common/netparser.c:332-350 | a quoted value `x"y` is read as `xy` and all that follows on the line, blanks included |
| WireLines.RegisterDevice | common/gncoll.c:337-376 | the printer writes the device's items, rrdname and scale only when there are any, and nothing if and only if name, uid, type, protocol or subtype is missing |
| WireLines.ReadOneLine | gnhastd/netloop.c:116 | one line is taken off the stream and what follows it is left |
| WireLines.ReadEitherBreak | gnhastd/netloop.c:116 | a carriage return in front of the line feed is not part of the line, and without a line feed nothing is read |
| WireLines.ReadWritten | gnhastd/netloop.c:114-121 | lines written one after another are read off the stream as they were written |
| WireLines.DeviceRoundTrip | common/gncoll.c:337-376 | the printed device is received as one line whose arguments are read back as the same device, with rrdname cut at 19 characters |
| WireLines.DeviceReadBack | common/netparser.c:229-376 | for any uid, name and rrdname, the arguments come back if and only if uid and rrdname have no blank and no quote and the name survives being quoted as it is |
| WireLines.DeviceNameReceived | gnhastd/cmdhandler.c:385-409 | the loop over the arguments ends with the device's name if and only if the name survives |
| WireLines.DeviceNameSwallows | common/gncoll.c:337-376 | for any name `x"y` nothing is received but the uid and a name that has taken in the rest |
| WireLines.ReadDeviceLoop | gnhastd/cmdhandler.c:385-409 | the loop over the arguments of a register command keeps the last value of each |
| WireGroups.ListLoop | common/gncoll.c:440-463 | each of the two loops prints nothing for an empty list, else the argument's name and the uids with commas between |
| WireGroups.RegisterDevgroup | common/gncoll.c:420-468 | the printer writes the group's items with one or two blanks between them, as empty lists are left out |
| WireGroups.GroupRoundTrip | gnhastd/cmdhandler.c:486-501 | the printed group is received as one line and read back with the same uid, name and lists |
| WireGroups.GroupLineCarried | common/gncoll.c:420-468 | the line of a group whose uids are plain is one that survives |
| WireGroups.GroupReadBack | common/netparser.c:229-376 | for any name, uid and lists, the arguments come back if and only if uid and lists have no blank and no quote and the name survives its quotes |
| WireGroups.GroupReceived | gnhastd/cmdhandler.c:486-501 | the server has read the group's name, and likewise all of the group, if and only if the name survives its quotes |
| WireGroups.NameSwallowsLists | common/gncoll.c:420-468 | for any name `x"y` the server reads no lists |
| WireAlarms.SetAlarmLine | common/gncoll.c:720-742 | the printer writes uid, text if there is one, severity and channels |
| WireAlarms.AlarmRoundTrip | gnhastd/cmdhandler.c:1233-1240 | the printed alarm is read back with the same uid, text, severity and channels, by the server and by a client |
| WireAlarms.AlarmReadBack | common/netparser.c:229-376 | for any uid and text, the arguments come back if and only if the uid has no blank and no quote and the text survives its quotes |
| WireAlarms.AlarmReceived | common/alarms.c:153-198 | whatever severity and channels it starts from, a receiver has read the alarm's text, and likewise all of the alarm, if and only if the text survives its quotes |
| WireAlarms.TextSwallowsNumbers | common/gncoll.c:733-738 | for any text `x"y` the receiver keeps the severity and the channels it started from |
| WireAlarms.AlarmArrives | gnhastd/netloop.c:116 | an alarm without line feeds is received as one line |
| CsvParser.CsvFile.ReadRow | alarmcoll/csvparser.c:107-213 | the loop with its two growing buffers returns the row that the character-by-character run gives, or nothing at the end; every write is within its buffer, for every rest of a file that the scan accepts |
| CsvParser.CsvFile.GetRow | alarmcoll/csvparser.c:92-97 | the first call takes the header first, if there is one |
| CsvParser.CsvFile.GetHeader | alarmcoll/csvparser.c:81-90 | reads the header once and keeps it, or refuses if there is none |
| CsvParser.RowReader.TakeChar | alarmcoll/csvparser.c:164-211 | one turn of the loop, with the quote that is taken back and overwritten |
| CsvParser.RowReader.NextField | alarmcoll/csvparser.c:192-201 | the row buffer has room for the next field after every multiple of 64 |
| CsvParser.AllRows | alarmcoll/collector.c:486-489 | calling until NULL returns all rows in order |
| CsvScan.AcceptedExactly | alarmcoll/csvparser.c:215-222 | every character but line feed, carriage return, NUL and quote is accepted as the delimiter |
| CsvScan.SoundStep | alarmcoll/csvparser.c:172-188 | a quote is only taken back from a field that has one, and a field always begins with no series of quotes |
| CsvScan.BrokenExactly | alarmcoll/csvparser.c:157-190 | a row makes the reader write in front of its buffer if and only if a scan with five flags says that the file ends in it, right after a quote that opens a later field |
| CsvScan.OverrunExactly | alarmcoll/csvparser.c:189-190 | the same for whole files and any accepted delimiter |
| CsvScan.OverrunHappens | alarmcoll/csvparser.c:189-190 | a delimiter and a quote are such a file; a quote alone ends without a row, and an empty quoted last field is read |
| CsvRoundTrip.ReadPrinted | alarmcoll/csvparser.c:107-213 | any nonempty rows printed by section 2 of RFC 4180, quoted where needed or wanted, with either line break and with or without the last, are read back without carriage returns and NULs, and then there are no more |
| CsvRoundTrip.RowsComeBack | alarmcoll/csvparser.c:107-213 | exactly the rows printed come back if and only if no field has a carriage return or a NUL |
| CsvRoundTrip.ReturnLost | alarmcoll/csvparser.c:169-171 | a quoted field with a carriage return comes back without it |
| AlarmRules.CollUpd | alarmcoll/collector.c:193-293 | the in-place loop over the rules gives the rows, messages and handlers of the row-by-row function, later rows seeing the latches of earlier ones |
| AlarmRules.UpdateRow | alarmcoll/collector.c:222-292 | one row: the first simple test that is set, in the field of the union that the kind of data says, then OR, then AND, the handler, then the latch and its message |
| AlarmLatches.RuleAfterUpdate | alarmcoll/collector.c:211-291 | after an update of its device, whatever its simple test (the first of those set, compared in the field that the kind of data says): the latch of a rule with neither OR nor AND is what the test says; with OR, that or the latch of the rule named; with AND, both; with OR and AND, that latch alone; the rule named counts as updated if it stands before |
| AlarmLatches.UpdateSends | alarmcoll/collector.c:211-291 | an update sends, in the order of the rules, one message for each latch that changes, setting ones only with a severity, and runs the handlers of the device's rules whose latch is set afterwards |
| AlarmLatches.TestOverRuns | alarmcoll/collector.c:171-291 | over any run the latch of a rule with one of the six comparisons is set if and only if the latest update of its device satisfies that comparison, for all three kinds of data |
| AlarmLatches.ServerShowsTest | alarmcoll/collector.c:193-330 | and after the delivery of all lines the server has the rule's alarm if and only if that update satisfies it |
| AlarmRuns.EstablishFeeds | alarmcoll/collector.c:301-330 | a clearing message for every rule, in order |
| AlarmRuns.ServerMirrorsLatches | alarmcoll/collector.c:193-330 | for rules whose uids and texts survive their line: from any server table, after the initial clears, any run of updates and delivery of all printed lines, the server holds a rule's alarm if and only if its latch is set and its severity positive, with its text and channel |
| AlarmRuns.SetTakesEffect | alarmcoll/collector.c:274-291 | the printed line that sets a rule's alarm leaves it on the server with text, severity and channels if and only if the text survives its quotes |
| AlarmRuns.QuoteRuleStuck | alarmcoll/collector.c:301-330 | among rules whose lines survive, the alarm of one with any text `x"y` is on the server from its first clearing message on, over any run, whatever its latch |
| AlarmRuns.SetAndClearAlternate | alarmcoll/collector.c:274-291 | over any run the messages of a rule with a severity set and clear its alarm strictly in turn |
| AlarmRuns.JitterOverRuns | alarmcoll/collector.c:236-254 | over any run a jitter rule has the value of the latest change and its time, and its latch set iff the latest update repeated that value and more than the threshold had passed |
| Crc8.CrcUpdate | balboacoll/collector.c:176-195 | the nested loops feed the bits of the message, most significant first, to the register |
| Crc8.CalcCs | balboacoll/collector.c:225-233 | the checksum is that of the message and eight zero bits from 0xb5 on |
| Crc8.Chunks | balboacoll/collector.c:176-195 | updating in chunks is updating with the concatenation |
| Crc8.ChecksumIsCrc8 | balboacoll/crc.h:45-48 | for every length the augmented form from 0xb5 is the direct CRC-8 from 0x02 |
| Crc8.OddErrorsShow | balboacoll/collector.c:225-233 | flipping any odd number of bits of a message of any length changes the checksum |
| Crc8.BurstErrorsShow | balboacoll/collector.c:225-233 | any error pattern within eight bits in a row changes the checksum |
| Base64.Encode | common/http_func.c:70-146 | the loop writes the encoding and its terminator and answers 0 if and only if the buffer is larger than 4*ceil(n/3); otherwise it fills the buffer with the beginning of the encoding; it never writes outside |
| Base64.GroupChars | common/http_func.c:84-100 | the shifts and masks of a group of three bytes give the characters that the bits in groups of six have by section 4 of RFC 4648, also for an incomplete group |
| Base64.CharIs | common/http_func.c:73 | the 64 characters by value, as in table 1 of RFC 4648 |
| Base64.DecodeEncoding | common/http_func.c:70-146 | a decoder recovers every byte sequence from its encoding |

## Left out

- Integer widths of counters, positions and times: unbounded here, except where a line says 32 or 64 bits.
- Memory management and string duplication: strings are values; queue membership and counters are kept.
- Sockets, SSL, libevent buffers and timers: connections are queues of lines, time is a parameter, ticks are punctual or arbitrary steps.
- JsonParser.Parser.Parse: `nextisval` is a field of the model that starts as false; `jsmn_init` does not set it.
- JsonModes.Resume: the strict build is not modelled, nor the build without token links.
- JsonLookup.NthMemberLoop: NULL names and buffers are not modelled; tokens whose sizes no parse has set, or whose spans lie outside the buffer, are excluded.
- JsonFields.FieldOfNthMember: claimed for members whose values are all leaves; the search is linear over tokens and does not know pairs of nested objects.
- PubSubSafety.RunCollectors: says nothing about the devices that `cmd_client` makes to track collectors, which are on no client's queue.
- PubSubServer.Server.FeedDataCb: no rate is 0, with which the tick divides by zero; results about schedules are for positive rates.
- JsonLookup.FindPairLoop: the member is one of the tokens; when the search for a member answers with an index behind them, the code reads beyond what was parsed.
- PubSubServer.Server.CmdRegister: handlers, tags, water marks and the generated rrdname are not part of the device.
- The client's counter of feeds, and the names and addresses of clients.
- Device data: an update carries one tagged value; the layout of the data union and unit conversions are not modelled.
- AlarmMirror.Mirrored: clients that listen with a negative threshold, or that dump before they listen, get lines but no claim; nor is there one for runs that set an alarm whose uid or text does not survive its line, which can then change another alarm of the client.
- AlarmExact.RegularIsNeeded: for uids without blanks and quotes. No other uid is read back (`AlarmReadBack`), but a clearing line for one may happen to change nothing, so that the rules would not be needed there.
- GroupReplay.SaveThenReplay: for whole graphs one direction only; the condition on names is exact for each line (`LineMakesGroup`).
- AlarmRuns.QuoteRuleStuck: the other rules of the collector are ones whose lines survive.
- A setalarm line for an unknown alarm without text is treated like a clearing one by the server, which tells all listeners; so does the model.
- GroupReplay.GroupServer.CmdRegisterGroup: the two loops that drop what no longer belongs run over a copy of the list, where the code removes from the list it walks.
- GroupEditor.Editor.OnSave: for acyclic graphs, shown by a rank; nothing in the code enforces one, and on a cycle the recursion does not end.
- WireTable.TableInOrder: the sorting itself is the C library's qsort; the table is given in its order.
- WireArgs.FillArgs: values with a fraction are kept as the text given to strtod.
- Decimals.AtoiSigned: beyond the range of a long, the behaviour of the GNU library is modelled.
- find_arg_bydev, name and id tables, modify, list and ask commands, handlers and discovery: finite tables or plumbing that would only add easy members.
- CsvParser.CsvFile.ReadRow: reading from a string is left out; the text of opening errors is the system's.
- AlarmRules.UpdateRow: doubles are real numbers, so there is no NaN and no rounding; how the fields of the data union overlay each other is left open, and an update says what each field holds.
- parse_wtype and the conversion of CSV fields to rules: in particular no claim is made about `<>`, for which the code leaves the flag of `<` or `>` set and looks at it first.
- AlarmRuns.ServerMirrorsLatches: needs unique alarm uids and no other author of these alarms, and severities that are not negative.
- Crc8.CrcUpdate: the register has exactly eight bits; a wider `crc_t` is masked to them after every byte.
- The red-black tree of linux/rb.c, behind the lookups by uid: its insertion and search; devices and groups are looked up in maps here.
- lcm, mk_rrdname, hex_decode, HTTP requests and serial set-up.
