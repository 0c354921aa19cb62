# AMD Wraith Prism command layer, modelled in Dafny

`wraith.c` configures the LEDs of an AMD Wraith Prism cooler over USB HID. Each command-line
argument is one command (`ring-map`, `effect`, `ring-effect`, `mirage`, `query-channel`)
followed by its words. The tool opens the device and sends an Enable frame, then runs the
commands in order. It stops at the first command it cannot parse, and sends an Apply frame
when the commands that ran asked for one. Every frame is a 65-byte buffer: a memset fill
(zero, or 0xFF for the effect frame) with specific offsets overwritten. Every transaction is
one write, then, if the whole frame went out, one read of up to 64 bytes.

The model has these modules:

- `Protocol` (protocol.dfy): bytes, frames, the channel and mode identifiers, the speed
  tables, and the two frame primitives, a memset buffer (`Blank`) and bytes stored at an
  offset (`Put`).
- `Frames` (frames.dfy): the byte-exact layout of the six frames, offset by offset; the
  three-byte rate encoding of `hz_to_bytes`; and lemmas showing that each frame carries its
  parameters and that the six kinds of frame never coincide.
- `Transport` (transport.dfy): `wraith_communicate`'s acceptance rule (`Transact`), and the
  HID handle as a class `HidDevice`.
  - `sent` records every frame handed to `hid_write`.
  - What the device answers to the k-th frame is given by two functions fixed when the
    handle is made.
- `Builders` (builders.dfy): the six `wraith_*` builders. Each fills a local `array<byte>`
  the way the C code does, calls `Communicate` once and ignores its status. Each is proved to
  append exactly its frame to `sent`.
- `Parsing` (parsing.dfy): the argument's length in UTF-8 bytes, the name tables and `FIND_VALUE`, the range-checked
  `parse_value`, and the speed and mode selection of the effect commands. It also gives the
  right-filled ring map, and for each command word the outcome function `XOutcome`, which
  says whether the command is rejected or what it returns and sends. Lemmas give each
  command's exact acceptance condition and the fields of the frame it sends. The search over
  a table (`Lookup`, `LookupAll`, `SlotsFrom`) is proved once for any table without repeats,
  and then read off for the three tables of names.
- `Commands` (commands.dfy): the `parse_*` functions as methods on the device, each proved
  against its outcome function. `ParseRingMap` keeps the two loops over `ring[15]`.
- `Session` (session.dfy): `main` from the point where the device is opened.
  - `RunCommands` is the command loop. `Run` wraps it between Enable and the conditional
    Apply.
  - `Trace` gives the whole sequence of frames a session sends.
  - The lemmas prove the Enable and Apply discipline and the meaning of `n_commands`.
- `Scenarios` (scenarios.dfy): complete sessions for particular command lines.

Behaviour of the code that the model keeps, and that a reader might not expect:

- The builders ignore `wraith_communicate`'s result (wraith.c:154, 166, 212, 254, 268, 290).
  A failed or short transaction therefore never stops a session. `Session.Run`'s trace does
  not depend on the device's answers at all.
- The `int ret` declared inside the loop (wraith.c:596) shadows the one `main` returns. A
  rejected command ends the loop, but the exit status is still 0. Only a missing device gives
  1 (wraith.c:612-615).
- Apply depends only on `n_commands`. So when two valid commands are followed by an invalid
  one, both frames and then Apply are sent (`Scenarios.TwoThenRejected`).
- `parse_query_channel` returns 0 (wraith.c:527). A query alone is sent but never leads to
  Apply (`Scenarios.QueryOnly`).
- `parse_mirage` bounds the green rate by 65336 but red and blue by 65536 (wraith.c:513-515).
  The model keeps the bounds as written.
- `ring-map` accepts the `off` channel as a slot, but `ring-effect` rejects it.
- Both effect commands require a speed level 1..5 even for static, bounce and morse, which
  then ignore it.

## Model

| member | source | states |
|---|---|---|
| Protocol.Blank | wraith.c:148 | a buffer after memset is CMD_SIZE (65) bytes, all equal to the fill |
| Protocol.Put | wraith.c:286-287 | storing a run of bytes at an offset places them there in order and leaves every other byte unchanged |
| Frames.EnableFrame | wraith.c:146-155 | the Enable frame is 65 bytes, 0x41 0x80 at offsets 1 and 2, zero everywhere else |
| Frames.ApplyFrame | wraith.c:157-167 | the Apply frame is 65 bytes, 0x51 0x28 0xE0 at offsets 1, 2 and 5, zero everywhere else |
| Frames.QueryFrame | wraith.c:257-265 | the query frame is 65 bytes, 0x40 0x21 and the channel at offsets 1..3, zero everywhere else |
| Frames.EffectFrame | wraith.c:227-251 | the effect frame is CMD_SIZE (65) bytes |
| Frames.EffectFrameLayout | wraith.c:227-251 | bytes 0..4 are 00 51 2C 01 00; bytes 5..16 are channel, speed, flags, mode, 0xFF, brightness, the primary and the secondary colour; bytes 17..64 keep the 0xFF fill |
| Frames.ChannelMapFrame | wraith.c:276-287 | the channel-map frame is CMD_SIZE (65) bytes |
| Frames.ChannelMapFrameLayout | wraith.c:276-287 | zero fill with 51 A0 01 at offsets 1..3, 0x03 at 6, logo at 9, fan at 10 and ring slot i at 0x0B + i for i in 0..14 |
| Frames.HzToBytes | wraith.c:169-185 | three bytes; 0 Hz gives the sentinel 00 FF 4A; otherwise the divisor saturated at 255, then the fraction and the integer part truncated to a byte |
| Frames.Saturate | wraith.c:182 | the divisor byte is the divisor itself below 255 and 255 from there on |
| Frames.MirageFrame | wraith.c:192-209 | the mirage frame is CMD_SIZE (65) bytes |
| Frames.MirageFrameLayout | wraith.c:192-209 | 51 71 at offsets 1..2; selectors 01..04 at offsets 5, 9, 13, 17; the 0 Hz sentinel at 6..8; the red, green and blue encodings at 10..12, 14..16, 18..20; zero elsewhere |
| Frames.EffectFrameDetermines | wraith.c:236-251 | two effect frames are equal exactly when their effects are: every parameter is carried |
| Frames.ChannelMapFrameDetermines | wraith.c:283-287 | two channel-map frames are equal exactly when their ring slots, logo and fan ids are |
| Frames.QueryFrameDetermines | wraith.c:264 | two query frames are equal exactly when their channels are |
| Frames.FrameKindsDistinct | wraith.c:150-151 | Enable, Apply, query, effect, channel-map and mirage frames differ pairwise, whatever their parameters, by their opcode bytes (also wraith.c:161-162, 195-196, 231-232, 262-263, 279-280) |
| Frames.MirageFrameDependsOnRates | wraith.c:171-175 | the floating-point stage of the rate encoding affects the mirage frame only at the non-zero rates it asks for |
| Transport.Transact | wraith.c:121-144 | a transaction is accepted exactly when the write returned at least 65 and the read exactly 64; a negative or short write, a read error or any other reply length is told apart, in that order of checking |
| Transport.StatusCode | wraith.c:125-143 | wraith_communicate returns 0 for a completed transaction and -1 for each of the four failures |
| Transport.HidDevice.Write | wraith.c:124 | hid_write records the frame as sent and returns the device's count for that transaction |
| Transport.HidDevice.Read | wraith.c:133 | hid_read returns the device's reply count for the last frame written |
| Transport.Communicate | wraith.c:121-144 | sends the frame exactly once and returns 0 exactly when the write count is at least 65 and the read count is 64, -1 otherwise |
| Builders.NewBuffer | wraith.c:147-148 | a fresh local buffer after memset |
| Builders.Store | wraith.c:150 | a store changes one byte of the buffer and nothing else |
| Builders.Enable | wraith.c:146-155 | the device's record grows by exactly the Enable frame, whatever the transaction's status |
| Builders.Apply | wraith.c:157-167 | the record grows by exactly the Apply frame |
| Builders.StoreHz | wraith.c:169-186 | the three rate bytes land at the given offset and the rest of the buffer is unchanged |
| Builders.Mirage | wraith.c:188-213 | the record grows by exactly the mirage frame for the three rates |
| Builders.EffectUpdate | wraith.c:215-255 | the record grows by exactly the effect frame for the effect |
| Builders.QueryChannel | wraith.c:257-270 | the record grows by exactly the query frame for the channel |
| Builders.ChannelMap | wraith.c:272-291 | the copying loop yields exactly the channel-map frame of the 15 slots, logo and fan, which is appended to the record |
| Parsing.Utf8Width | wraith.c:538 | a character takes 1 to 4 bytes, and 1 exactly when it is ASCII |
| Parsing.Utf8Size | wraith.c:538 | a text takes at least one and at most four bytes per character |
| Parsing.Utf8SizeAscii | wraith.c:538 | for ASCII text the byte count is the character count |
| Parsing.Utf8SizeRepeat | wraith.c:538 | n copies of one character take n times its width |
| Parsing.Length | wraith.c:538 | strlen of the argument: the bytes of the command word plus, for each further word, a space and its bytes (proved additive by ArgsLengthAppend) |
| Parsing.ArgsLength | wraith.c:538 | the bytes the words after the command word add: a space and the word's bytes each |
| Parsing.ArgsLengthAppend | wraith.c:538 | the bytes of two runs of words add up |
| Parsing.Lookup | wraith.c:341-348 | the result is -1 or a byte; LookupSpec ties it to the entries of the table |
| Parsing.LookupSpec | wraith.c:341-348 | -1 exactly when the word is missing or the name is not in the table; otherwise an id paired with that name |
| Parsing.FindValue | wraith.c:341-348 | the search loop over the declared entries returns the Lookup value |
| Parsing.ChannelId | wraith.c:350-354 | parse_channel: the table search over the channel names; ChannelIdByName gives its value per name |
| Parsing.ModeId | wraith.c:356-360 | parse_mode: the table search over the mode names; ModeIdByName gives its value per name |
| Parsing.RingChannelId | wraith.c:362-380 | parse_ring_channel: the table search over the nine ring names; RingChannelIdByName gives its value per name |
| Parsing.ParseValue | wraith.c:382-394 | the result is the default or a number in [min, max] |
| Parsing.ParseValueChoice | wraith.c:385-393 | a present word whose number lies in [min, max] gives that number; any result other than the default is the word's own number |
| Parsing.LookupFinds | wraith.c:344-346 | in a table without repeats, each name's own id is found |
| Parsing.LookupAgrees | wraith.c:341-348 | a table without repeats that holds exactly a dictionary's entries finds the dictionary's id for each name and -1 for any other |
| Parsing.ChannelIdByName | wraith.c:350-354 | parse_channel maps logo to 0x05, fan to 0x06 and every other name to -1 |
| Parsing.ModeIdByName | wraith.c:356-360 | parse_mode maps static, cycle and breath to modes 1, 2, 3 and every other name to -1 |
| Parsing.RingTablesAgree | wraith.c:362-378 | the two parallel ring tables pair each of the nine names with its channel id |
| Parsing.RingChannelIdByName | wraith.c:362-380 | parse_ring_channel maps each of the nine ring names, off included, to its channel id and any other name to -1 |
| Parsing.EffectSpeed | wraith.c:430-442 | the speed switch of parse_effect: 0xFF for static, the level's table entry for cycle and breath, none for any other mode; EffectSpeedByName states it per mode name |
| Parsing.RingSetting | wraith.c:467-500 | the channel switch of parse_ring_effect: a mode and speed per ring channel, none for off; RingSettingByName and RingSettingOff state it per name |
| Parsing.EffectRequest | wraith.c:416-449 | the effect an `effect` command asks for, or none; EffectRequestAccepted and EffectRequestFields state when and what |
| Parsing.RingEffectRequest | wraith.c:454-507 | the effect a `ring-effect` command asks for, or none; RingEffectRequestAccepted and RingEffectRequestFields state when and what |
| Parsing.MirageRequest | wraith.c:512-518 | the three rates a `mirage` command asks for, or none; MirageRequestAccepted states when and what |
| Parsing.QueryRequest | wraith.c:523-527 | the channel a `query-channel` command asks for, or none; QueryRequestAccepted states when and what |
| Parsing.EffectRequestAccepted | wraith.c:416-451 | `effect` is accepted exactly when it has logo or fan, a mode name, a level 1..5, and brightness and primary colour in 0..255 |
| Parsing.EffectSpeedByName | wraith.c:430-439 | for each mode name at level 1..5: static gives 0xFF, cycle and breath the level's entry of their table |
| Parsing.EffectRequestFields | wraith.c:416-449 | an accepted `effect` sends the named channel and mode; speed 0xFF for static and the level's cycle or breath table entry otherwise; secondary colour defaulting to 0 and flags to 0x20 |
| Parsing.RingSettingByName | wraith.c:467-500 | per ring channel name, the mode and speed sent; off has no setting |
| Parsing.RingSettingOff | wraith.c:468-500 | among the ring channel names, exactly `off` has no mode and speed |
| Parsing.RingEffectNumbers | wraith.c:456-460 | the level, brightness and primary colour parse exactly when those words are present and in range |
| Parsing.RingEffectRequestAccepted | wraith.c:454-500 | `ring-effect` is accepted exactly when it names a ring channel other than off, a level 1..5, and brightness and primary colour in 0..255 |
| Parsing.RingEffectRequestFields | wraith.c:454-507 | an accepted `ring-effect` names a ring channel other than off and a level 1..5; it sends that channel's id, the mode and speed of its setting at that level, the brightness and primary colour given, and the optional defaults |
| Parsing.MirageRequestAccepted | wraith.c:512-521 | `mirage` is accepted exactly when red and blue lie in 0..65536 and green in 0..65336, and then carries those three rates |
| Parsing.QueryRequestAccepted | wraith.c:523-530 | `query-channel` is accepted exactly when the id lies in 0..15, and then queries that id |
| Parsing.LookupAll | wraith.c:399-407 | when every word is found, one id per word |
| Parsing.LookupAllSpec | wraith.c:399-407 | the ids are there exactly when every word is in the table, and then the j-th is the j-th word's id |
| Parsing.LookupAllOfIds | wraith.c:399-407 | ids found for every word are exactly the ids the search yields |
| Parsing.RightFill | wraith.c:410-411 | the right fill of 1..15 slots is 15 slots long |
| Parsing.RightFillOf | wraith.c:410-411 | 15 slots whose tail from n repeats slot n - 1 are the right fill of their first n |
| Parsing.SlotsFrom | wraith.c:396-411 | the 15 slots a list of names asks for in a given table, or none; SlotsFromAccepted, SlotsFromRightFill and SlotsFromUnique state when and what |
| Parsing.SlotsFromAccepted | wraith.c:399-409 | the slots are there exactly when there is a word and each of the first 15 words is in the table |
| Parsing.SlotsFromRightFill | wraith.c:399-411 | the slots hold the ids of the first n = min(words, 15) words and slots n..14 repeat slot n - 1 |
| Parsing.SlotsFromUnique | wraith.c:399-411 | slots of that shape are the only slots the words can give |
| Parsing.SlotsFromOfPrefix | wraith.c:408-411 | once the first n ids are known, the slots are those ids right-filled |
| Parsing.RingSlots | wraith.c:396-411 | the 15 ring slots of `ring-map`, read from the ring table; RingSlotsAccepted, RingSlotsRightFill and RingSlotsUnique state when and what |
| Parsing.RingSlotsAccepted | wraith.c:396-409 | `ring-map` is accepted exactly when it has a word and each of its first 15 words names a ring channel |
| Parsing.RingSlotsRejectsWord | wraith.c:403-405 | a word among the first 15 that is not a ring channel rejects the ring map |
| Parsing.RingSlotsRightFill | wraith.c:396-411 | an accepted ring map holds the channels of its first n = min(words, 15) names in order, and slots n..14 repeat slot n - 1 |
| Parsing.RingSlotsUnique | wraith.c:396-411 | those slots are the only ones an accepted ring map can hold |
| Parsing.RingSlotsIgnoresExtraWords | wraith.c:399 | words after the fifteenth never change the map |
| Parsing.RingMapOpcode | wraith.c:280 | an accepted ring map sends the 0xA0 opcode |
| Parsing.EffectOpcode | wraith.c:232 | an accepted effect sends the 0x2C opcode |
| Parsing.RingEffectOpcode | wraith.c:232 | an accepted ring effect sends the 0x2C opcode |
| Parsing.EffectFrameOpcode | wraith.c:232 | every effect frame carries the 0x2C opcode |
| Parsing.MirageOpcode | wraith.c:196 | an accepted mirage sends the 0x71 opcode |
| Parsing.QueryOpcode | wraith.c:263 | an accepted query sends the 0x21 opcode |
| Parsing.RingMapOutcome | wraith.c:396-414 | `ring-map`: rejected, or 1 and the channel-map frame with logo 0x05 and fan 0x06 (RingMapOpcode) |
| Parsing.EffectOutcome | wraith.c:416-452 | `effect`: rejected, or 1 and the effect frame (EffectOpcode) |
| Parsing.RingEffectOutcome | wraith.c:454-510 | `ring-effect`: rejected, or 1 and the effect frame (RingEffectOpcode) |
| Parsing.MirageOutcome | wraith.c:512-521 | `mirage`: rejected, or 1 and the mirage frame (MirageOpcode) |
| Parsing.QueryOutcome | wraith.c:523-530 | `query-channel`: rejected, or 0 and the query frame (QueryOpcode) |
| Parsing.CommandOutcome | wraith.c:532-556 | parse_command: too long or unknown is rejected, otherwise the outcome of the word's parser; CommandOutcomeAccepted states what an accepted command returns and sends |
| Parsing.CommandOutcomeAccepted | wraith.c:532-556 | an accepted command is shorter than 256 bytes, returns 1 (0 for a query), and sends one 65-byte frame that is neither Enable nor Apply |
| Commands.ParseChannel | wraith.c:350-354 | the looked-up channel id or -1 |
| Commands.ParseMode | wraith.c:356-360 | the looked-up mode id or -1 |
| Commands.ParseRingChannel | wraith.c:362-380 | the looked-up ring channel id or -1 |
| Commands.ParseRingMap | wraith.c:396-414 | the counting loop and the right-fill loop return the ring-map outcome: -1 and nothing sent on rejection, else the map with logo 0x05 and fan 0x06 sent and 1 returned |
| Commands.ParseEffect | wraith.c:416-452 | returns and sends what the `effect` outcome says |
| Commands.ParseRingEffect | wraith.c:454-510 | returns and sends what the `ring-effect` outcome says |
| Commands.ParseMirage | wraith.c:512-521 | returns and sends what the `mirage` outcome says |
| Commands.ParseQueryChannel | wraith.c:523-530 | returns and sends what the `query-channel` outcome says, 0 on success |
| Commands.ParseCommand | wraith.c:532-556 | an argument of 256 bytes or more or an unknown word is rejected with nothing sent; otherwise the word's parser runs |
| Session.Outcomes | wraith.c:594-597 | one outcome per command-line argument, in order |
| Session.Executed | wraith.c:594-604 | the commands run are those before the first rejected one, at most all of them |
| Session.CommandFrames | wraith.c:594-604 | the frames the executed commands send, in order; OneFramePerCommand counts them |
| Session.Count | wraith.c:601-603 | n_commands: the sum of what the executed commands return; CountsNonQueries says which they are |
| Session.Trace | wraith.c:590-608 | Enable, the command frames, and Apply when n_commands is positive; ControlFrames states the Enable and Apply discipline |
| Session.NonQueries | wraith.c:527 | how many commands are not queries, the ones whose success returns 1 |
| Session.ExtendAccepted | wraith.c:601-603 | an accepted command adds its frame to those sent and its value to n_commands |
| Session.StopAtRejected | wraith.c:597-600 | nothing after the first rejected command is run, sent or counted |
| Session.OneFramePerCommand | wraith.c:594-604 | each executed command sends exactly one frame |
| Session.CountsNonQueries | wraith.c:594-604 | n_commands is the number of executed commands that are not queries |
| Session.OutcomesNoControl | wraith.c:532-556 | no command's frame is an Enable or an Apply frame |
| Session.NoControlFrames | wraith.c:594-604 | the frames the commands send contain neither Enable nor Apply |
| Session.ControlFrames | wraith.c:586-608 | Enable is sent first and only once; Apply is sent exactly when n_commands is positive, and then only once and last |
| Session.SessionControlFrames | wraith.c:586-608 | the same in terms of the command line: Apply is sent exactly when some executed command is not a query |
| Session.StepAccepted | wraith.c:601-603 | one loop turn for an accepted command keeps the loop's invariant |
| Session.StepRejected | wraith.c:597-600 | the loop turn that meets a rejected command leaves exactly the frames of the executed commands |
| Session.RunCommands | wraith.c:594-604 | the loop sends exactly the frames of the commands up to the first rejected one, in order, and ends with n_commands equal to their summed return values |
| Session.Run | wraith.c:586-617 | no device: nothing sent and status 1; a device: exactly Enable, the command frames and Apply if counted are sent, and status 0 even after a rejected command or a failed transaction |
| Scenarios.OneAccepted | wraith.c:594-608 | a command line of one accepted command sends Enable, its frame, and Apply exactly when it counts |
| Scenarios.StaticLogo | wraith.c:416-449 | `effect logo static 1 255 255 0 0` sends Enable, a red static logo effect with speed 0xFF and flags 0x20, then Apply |
| Scenarios.RingMapStatic | wraith.c:396-413 | `ring-map static` fills all 15 slots with the static channel |
| Scenarios.MirageOff | wraith.c:512-518 | `mirage 0 0 0` sends the mirage frame with every rate off |
| Scenarios.LongArgumentRejected | wraith.c:538-539 | an `effect` argument of 183 characters but more than 300 bytes is rejected |
| Scenarios.EffectWithoutWords | wraith.c:416-451 | `effect` with no words is rejected |
| Scenarios.TwoThenRejectedOutcomes | wraith.c:532-556 | the outcomes of `ring-map static`, `mirage 0 0 0` and `effect` |
| Scenarios.TwoAcceptedThenRejected | wraith.c:594-608 | two accepted commands before a rejected one: their frames and then Apply are sent, nothing after |
| Scenarios.TwoThenRejected | wraith.c:586-608 | two valid commands and an invalid third still end with Apply |
| Scenarios.QueryOnly | wraith.c:523-527 | a lone query sends Enable and the query frame but no Apply |

## Left out

- The hidapi calls (`hid_init`, `hid_enumerate`, `hid_open_path`, `hid_write`, `hid_read`, `hid_close`) are foreign I/O.
  - The device is the class `HidDevice`, whose write and read counts are given per transaction.
  - `hid_read` fills the buffer with the reply. The model does not keep the reply bytes, because nothing in the core reads them.
  - `hid_close` (wraith.c:611) changes nothing the model observes.
- `wraith_open` (wraith.c:293-307): device selection is not modelled. `Session.Run` receives its result, a handle or null.
- `hid_init` failing (wraith.c:580-584): this path is not modelled. `Session.Run` starts after it.
- `help`, the `-v` flag and the exit on an empty command line (wraith.c:564-577) are command-line output.
  - `Session.Run` takes the command arguments after any flag.
- Logging (`log_debug`, `log_bytes`, `log_error`) and `verbose_mode`, including its save and restore in `wraith_query_channel` (wraith.c:258, 266, 269), only produce output.
- Frames.HzToBytes: the non-zero branch (wraith.c:176-184) does single-precision floating-point arithmetic with truncating casts. The model takes its three unsigned results as a parameter `quotients`. It models only the saturation of the divisor and the truncation of each result to a byte. Only the 0 Hz sentinel is stated exactly.
- String mechanics are not modelled: `strsep`, `strncpy` into the 256-byte buffer, and `strtoul(…, NULL, 0)`.
  - A command is its word and its space-separated words, each with the int `strtoul` yields for it.
  - Its length is the sum of the word lengths in bytes plus the separating spaces.
- Parsing.Length: the bytes of an argument are taken to be the UTF-8 encoding of its characters. An argument in another encoding, or bytes that are not valid UTF-8, cannot be written as a `string` and are not modelled.
- Parsing.Lookup: the `FIND_VALUE` loop runs to `sizeof(strings)`, a byte count, so for an unknown name it reads past the table (wraith.c:344). The model searches the declared entries only and returns -1 when the name is absent.
- The `char` holding the right-fill value in `parse_ring_map` (wraith.c:410) may be signed. Storing it back into an `unsigned char` restores the byte, so the model copies the byte directly.
