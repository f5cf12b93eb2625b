# Device simulator scheduling, test-data generator and period verification, in Dafny

This project models the core of a small device-simulator toolkit and proves properties of the
model. The toolkit has four parts:

- **The simulator** (`simple_devicesim.py`). It loads a YAML configuration whose `Replies` each
  list message rules (a file-name regular expression, a `delay` in milliseconds, a `repeat`
  count). It expands every rule into one schedule entry per matching file. It waits for
  `ReceiveCount` non-empty messages from the peer and answers the k-th with the k-th reply,
  sending that reply's messages strictly one after another (`execute_reply_schedule`). It then
  streams every remaining reply with a discrete-event scheduler (`execute_continuous_schedule`).
  That scheduler groups the messages by delay, rotates each group through its messages, and pops
  a priority queue ordered by (send time, message index).
- **The payload generator** (`DataGenerator` in `generate_test_data.py`). It reads a definition
  file of one field per line and writes `count` samples of little-endian values of 8, 16 or
  32 bits. A field is a hex literal, a decimal number, or a `<function args…>` call. Regular
  fields are evaluated first. The `checksum`/`inverse_checksum` fields then see the regular
  values of the same sample.
- **The reader and period verification** (`verify_periods_detailed.py`). `read_binary_data` decodes a
  generated file back into samples. `verify_period` tells whether a column repeats with a
  given period.
- **The file combiner** (`combine_files.py`). It concatenates `base.1.bin` … `base.count.bin`,
  keeping the ones that exist, into one output file.

Module layout:

- `text.dfy`, `string_order.dfy` and `bytes.dfy` model the Python primitives the code relies
  on: `strip`, `split()`, `lower()`, `int()`, `str()`, `sorted()` on strings, and
  `struct.pack`/`unpack` little-endian layouts.
- `transport.dfy` models the socket as a scripted `Connection`:
  - a sequence of send outcomes;
  - a sequence of receipts;
  - a logical millisecond clock;
  - a log of the sends made.
- Then one module per part of the core:
  - `sim_config.dfy`, `sim_schedule.dfy`, `reply_execution.dfy`, `continuous.dfy` and
    `message_loop.dfy` for the simulator;
  - `generator.dfy` for the generator;
  - `periods.dfy` for the reader and period verification;
  - `combine.dfy` for the combiner.

How the source's loops and state are modelled:

- Every loop that updates state in the source is an imperative method. Its `ensures` ties the
  result, or the new state of the `Connection`, the schedule array or the generator, to a pure
  function. The properties are then proved about those functions as lemmas.
- The continuous scheduler needs no fuel. Its `while send_queue` loop terminates in the model
  because every successful send uses up one scripted outcome. Once the script is used up, every
  send fails, as when the peer has gone.

`simple_devicesim.py` reads only the `WaitToStart`, `ReceiveCount`, `Replies` and `Messages`
keys of its configuration. The `waitCount` triggers and the negative-repeat request–response
cycles that `test_waitcount.py`, `demo_waitcount.py` and `test_request_response.py` exercise are
not implemented there. The model follows `simple_devicesim.py`:

- A negative `repeat` sends once in `execute_reply_schedule`, because
  `range(1, repeat_count)` is empty (simple_devicesim.py:227-237).
- A negative `repeat` ends its delay group after one send in the continuous scheduler, because
  the test `repeat == 0 or sent_count < repeat` fails after that send (simple_devicesim.py:288).
- A rule without `delay` or `repeat` is not a valid `MessageRule`, since
  `msg_config['delay']` and `msg_config['repeat']` raise `KeyError` there
  (simple_devicesim.py:105-107).

## Model

| member | source | states |
|---|---|---|
| SimConfig.AsFlag | simple_devicesim.py:28-34 | The WaitToStart conversion: a boolean is kept, text is true when its lower-cased form is `yes`, `true` or `1`. SimConfig.AsFlagMeaning gives the other kinds. |
| SimConfig.AsInt | simple_devicesim.py:35 | `int()` on a ReceiveCount scalar: booleans give 1 and 0, an integer is kept, text is parsed, and null has no value. |
| SimConfig.AsFlagMeaning | simple_devicesim.py:28-34 | A boolean WaitToStart is kept. An integer is true exactly when it is 1. Text is true exactly when its lower-cased form is `yes`, `true` or `1`. Null is false. |
| SimConfig.LoadConfig | simple_devicesim.py:22-53 | Loading fails exactly when ReceiveCount is present and `int()` cannot convert it. A loaded WaitToStart is the flag conversion of the key when present and false when absent. ReceiveCount is `int()` of the key when present and 0 when absent. Without Replies and Messages there are no replies. |
| SimConfig.KeyDefaults | simple_devicesim.py:25-45 | Each key defaults on its own, whatever the other keys hold: a missing ReceiveCount loads successfully as 0, a missing WaitToStart as false, a present WaitToStart through the flag conversion, and no Replies or Messages as no replies. |
| SimConfig.EmptyDocumentDefaults | simple_devicesim.py:28-53 | A document with none of the keys loads as: do not wait, ReceiveCount 0, no replies. |
| SimConfig.RepliesTakePrecedence | simple_devicesim.py:38-39 | When `Replies` is present, `Messages` does not affect the result, and the replies are returned as given. |
| SimConfig.LegacyMessagesWrapped | simple_devicesim.py:40-45 | `Messages` alone becomes exactly one reply, numbered 1, holding those messages. |
| SimConfig.ReceiveCountFromText | simple_devicesim.py:35 | A ReceiveCount given as the text of an integer loads as that integer. |
| SimConfig.AsIntOfText | simple_devicesim.py:35 | `int(str(n)) == n` for the scalar conversion. |
| SimSchedule.CandidatesMembers | simple_devicesim.py:60-64 | A path is collected exactly when some listed name matches the pattern, is a regular file, and joins to that path. |
| SimSchedule.MatchingFiles | simple_devicesim.py:56-68 | The returned list of files is sorted. |
| SimSchedule.MatchingFilesMembers | simple_devicesim.py:56-68 | An unreadable directory (OSError) gives no files. Otherwise a path is returned exactly when it is the joined path of a listed name that matches and is a regular file. |
| SimSchedule.FindMatchingFiles | simple_devicesim.py:56-68 | The listing loop followed by `sorted` returns `MatchingFiles`. |
| SimSchedule.EntriesFor | simple_devicesim.py:114-120 | One entry per matching file. |
| SimSchedule.CreateMessageScheduleForReply | simple_devicesim.py:99-122 | The nested append loops build `Expand` of the reply's rules: rule by rule, each rule's entries in sorted file order. |
| SimSchedule.ExpandAppend | simple_devicesim.py:104-120 | The schedule of concatenated rule lists is the concatenation of their schedules, so rules contribute in order. |
| SimSchedule.ExpandEntries | simple_devicesim.py:104-120 | There is one entry per (rule, matching file) pair. Every entry starts with `sent_count` 0 and carries the delay and repeat of a rule whose pattern matched its path. |
| SimSchedule.CreateMessageSchedule | simple_devicesim.py:125-134 | No replies give an empty schedule. Otherwise the schedule has one entry per match of the first reply's rules. |
| Transport.AttemptConsumes | simple_devicesim.py:71-81 | A successful send uses up one scripted outcome; a failed one uses up at most one. |
| Transport.Connection.SendFile | simple_devicesim.py:71-81 | Returns true exactly when the scripted outcome is a success. A successful send is logged at the current time. |
| Transport.Connection.Sleep | simple_devicesim.py:222-224 | The clock advances by the delay when the delay is positive, and nothing else changes. |
| Transport.Connection.SleepUntil | simple_devicesim.py:277-281 | The clock advances to the due time when that time has not yet come, and nothing else changes. |
| Transport.Connection.ReceiveWithTimeout | simple_devicesim.py:84-96 | Returns the next scripted receipt and removes it. Returns None, changing nothing, once the script is used up. |
| ReplyExecution.Repeats | simple_devicesim.py:231-237 | The repeat loop does not touch the receipts. |
| ReplyExecution.SendMessage | simple_devicesim.py:215-240 | One message's wait, first send and repeats do not touch the receipts. |
| ReplyExecution.RunReply | simple_devicesim.py:210-240 | The reply keeps the number of schedule entries and does not touch the receipts. |
| ReplyExecution.ExecuteReplySchedule | simple_devicesim.py:210-240 | Updates the schedule array's sent counts in place, and the connection, exactly as `RunReply` says. |
| ReplyExecution.SendScheduledMessage | simple_devicesim.py:215-240 | The loop body for message k updates entry k and the connection as `SendMessage` says, and leaves every other entry unchanged. |
| ReplyExecution.RunReplyAt | simple_devicesim.py:215-240 | From message k on, a failed message ends the reply with the later entries untouched. A successful one passes the connection on to the next message. |
| ReplyExecution.WaitedIsProduct | simple_devicesim.py:222-224 | n waits of a step take n·step milliseconds. |
| ReplyExecution.Sends | simple_devicesim.py:222-237 | The log of k sends of one message has k records. |
| ReplyExecution.SendsAt | simple_devicesim.py:222-237 | The j-th of those sends happens (j+1)·step after the start: a wait precedes every send, the first included. |
| ReplyExecution.RepeatsClosed | simple_devicesim.py:231-237 | With L leading successes and m repeats still to go, the repeat loop sends min(L, m) times and raises the count by that. It succeeds exactly when L ≥ m. |
| ReplyExecution.RepeatsCost | simple_devicesim.py:231-237 | The repeat loop waits once per attempt: m attempts, or L + 1 when one fails. |
| ReplyExecution.RepeatsUses | simple_devicesim.py:231-237 | The repeat loop uses one scripted outcome per attempt. |
| ReplyExecution.SendMessageClosed | simple_devicesim.py:215-240 | With L leading successes a message is sent min(L, max(1, repeat)) times, each after its delay. It succeeds exactly when L ≥ max(1, repeat). Its count is untouched only when its first send fails. |
| ReplyExecution.SendMessageCost | simple_devicesim.py:215-240 | One message uses one outcome and one wait per attempt. |
| ReplyExecution.ReplyLog | simple_devicesim.py:215-237 | A fully successful reply logs as many sends as its messages need together. |
| ReplyExecution.RunReplyAllSent | simple_devicesim.py:215-237 | With enough successes every message ends with `sent_count = max(1, repeat)`, and exactly the needed outcomes are used. |
| ReplyExecution.RunReplyLog | simple_devicesim.py:215-237 | With enough successes the log gains each message's sends in turn, strictly one message after another. |
| ReplyExecution.FailIndex | simple_devicesim.py:227-240 | The failing message is a message of the schedule. |
| ReplyExecution.FailSent | simple_devicesim.py:227-240 | The failing message made fewer sends than it needed. |
| ReplyExecution.Settled | simple_devicesim.py:227-240 | The schedule after a failing reply keeps its length. |
| ReplyExecution.RunReplySettled | simple_devicesim.py:227-240 | A reply that fails leaves the schedule as `Settled` describes. |
| ReplyExecution.SettledAt | simple_devicesim.py:227-240 | In `Settled`, the messages before the failing one are complete and the failing one holds its successful sends. Later ones are untouched. |
| ReplyExecution.RunReplyStopsAtFailure | simple_devicesim.py:227-240 | The first failed send ends the whole reply: earlier messages are complete, and the failing message's count equals its successful sends (unchanged when its first send failed). Every later message keeps its count. |
| ReplyExecution.RunReplyFailureLog | simple_devicesim.py:227-240 | A reply that fails logs exactly its L leading successes. |
| Continuous.GroupOf | simple_devicesim.py:252 | Finds the group holding a delay, or reports that no group has it. |
| Continuous.JoinGroup | simple_devicesim.py:254 | A message with a known delay joins that group and the grouping stays a partition. |
| Continuous.NewGroup | simple_devicesim.py:252-254 | A message with a new delay opens a group of its own at the end. |
| Continuous.AddMemberKeepsGrouping | simple_devicesim.py:250-254 | One pass of the grouping loop keeps the partition. |
| Continuous.DelayGroups | simple_devicesim.py:249-254 | `delay_groups`: one group per distinct delay, in order of first appearance, so never more groups than messages. Continuous.DelayGroupsPartition states the partition. |
| Continuous.DelayGroupsPartition | simple_devicesim.py:249-254 | The groups partition the schedule. There is one group per distinct delay, in order of first appearance. Each group lists its messages in schedule order and starts with cursor 0. |
| Continuous.Insert | simple_devicesim.py:267 | `heappush` adds exactly the new entry to the queue. |
| Continuous.InsertSorted | simple_devicesim.py:267-297 | Pushing keeps the queue in (send time, message index) order. |
| Continuous.InsertGroups | simple_devicesim.py:267-297 | Pushing for a group that is not queued keeps one entry per group. |
| Continuous.PopValid | simple_devicesim.py:282 | `heappop` keeps the scheduler's invariant. |
| Continuous.RescheduleValid | simple_devicesim.py:288-297 | Rescheduling a group keeps the invariant. |
| Continuous.AdvanceValid | simple_devicesim.py:284-303 | Handling a send's outcome keeps the invariant and records whether the send failed. |
| Continuous.StepValid | simple_devicesim.py:281-303 | One pass of the inner loop keeps the invariant and uses up an outcome unless it fails. |
| Continuous.ContinuousRun | simple_devicesim.py:243-303 | `execute_continuous_schedule` on values. It ends with a failed send or with an empty queue. |
| Continuous.Run | simple_devicesim.py:277-303 | The loop ends with a failed send or an empty queue. |
| Continuous.RunValid | simple_devicesim.py:277-303 | The invariant holds to the end of the run. |
| Continuous.InitialQueueMembers | simple_devicesim.py:256-267 | The initial queue holds one entry per group: the group's first message, due one delay after the start. |
| Continuous.InitialQueueOrdered | simple_devicesim.py:256-267 | The initial queue is ordered and holds one entry per group. |
| Continuous.StartValid | simple_devicesim.py:245-267 | The state after the initial pushes satisfies the invariant. |
| Continuous.StepSendsEarliest | simple_devicesim.py:281-285 | The entry sent is the earliest by (send time, message index). It is sent once due, and logged unless the send fails. |
| Continuous.StepReschedules | simple_devicesim.py:284-299 | After a successful send the count rises by one. The group is pushed again exactly when `repeat == 0` or `sent_count < repeat`: with the cursor advanced by one modulo the group size, and due one delay after the previous send time, not after "now". Otherwise the group leaves the queue. |
| Continuous.FailedSendEnds | simple_devicesim.py:301-303 | A failed send ends the schedule at once, with no count changed and nothing logged. |
| Continuous.StepSizes | simple_devicesim.py:281-297 | A step keeps the number of messages and of groups. |
| Continuous.DroppedGroupStaysOut | simple_devicesim.py:288-299 | A group that has left the queue never returns. Its rotation stops and its messages are not sent again. |
| Continuous.SingleMessageLoop | simple_devicesim.py:277-299 | A queued single message with finite repeats and delay ≥ 0 runs to `max(1, repeat)` sends, one delay apart. |
| Continuous.SingleMessage | simple_devicesim.py:243-303 | A one-message schedule with `repeat = r ≠ 0`, delay ≥ 0 and a clean count is sent exactly `max(1, r)` times when all its sends succeed. The first send is one delay after the start and the rest follow one delay apart. Continuous.SoloGroupSentInFull states the bound for any delay and any schedule, and the exact count for runs that end without a failed send. |
| Continuous.SoloStepOwn | simple_devicesim.py:281-299 | Sending the solo message itself keeps that invariant: its count rises by one and the group is pushed again exactly while repeats remain. |
| Continuous.SoloStepOther | simple_devicesim.py:281-299 | Sending any other group's message leaves the solo message, its rotation and whether its group is queued unchanged. |
| Continuous.SoloRun | simple_devicesim.py:277-303 | From that invariant, however the run ends, the solo message keeps its other fields and is sent at most `max(1, repeat)` times. A run that ends without a failed send leaves it sent exactly `max(1, repeat)` times. |
| Continuous.InitialQueueHolds | simple_devicesim.py:256-265 | Every delay group's first push, due one delay after the start, is in the initial queue. |
| Continuous.SoloGroup | simple_devicesim.py:249-254 | A message whose delay no other message shares forms a group holding only itself. |
| Continuous.SoloGroupSentInFull | simple_devicesim.py:243-303 | In any schedule and for any delay, negative ones included, a message with `repeat = r ≠ 0` whose delay no other message shares, starting from a count of 0, is never sent more than `max(1, r)` times, however the run ends. It has been sent exactly `max(1, r)` times when the run ends without a failed send. |
| Continuous.UniformGroups | simple_devicesim.py:249-254 | Messages sharing one delay form a single group holding all of them. |
| Continuous.RotatingAt | simple_devicesim.py:290-297 | The j-th send of a rotation from cursor c is of message (c + j) mod n, j delays after the first. |
| Continuous.RotationLoop | simple_devicesim.py:277-303 | A single-group rotation of endlessly repeating messages runs until a send fails. |
| Continuous.RotationFails | simple_devicesim.py:301-303 | A rotation whose next send fails ends there, with the connection that send leaves. |
| Continuous.RotationRun | simple_devicesim.py:243-303 | n messages sharing delay d ≥ 0 and repeating for ever go out round-robin: the k-th send is of message k mod n at start + (k+1)·d. The schedule ends at the first failed send, after exactly the leading successes. |
| Continuous.GroupByDelay | simple_devicesim.py:249-254 | The grouping loop builds `DelayGroups` of the schedule. |
| Continuous.InitialPushes | simple_devicesim.py:256-267 | The push loop builds the initial queue. |
| Continuous.SendDue | simple_devicesim.py:281-303 | One pass of the inner loop on the array and connection in place is `Step`. |
| Continuous.ExecuteContinuousSchedule | simple_devicesim.py:243-315 | Leaves the schedule's counts and the connection as `ContinuousRun` says. |
| MessageLoop.Answer | simple_devicesim.py:180-184 | Answering a message does not touch the receipts. |
| MessageLoop.Plan | simple_devicesim.py:156-205 | The dispatch plan covers every reply. |
| MessageLoop.PhaseOne | simple_devicesim.py:159-188 | Phase one from a given count and reply index. A stalled phase has used up the receipts. MessageLoop.PhaseOneStalls, MessageLoop.PhaseOneLeaves and MessageLoop.PhaseOneTrace state when it stalls, what it leaves and what it answers. |
| MessageLoop.PhaseTwo | simple_devicesim.py:190-205 | Phase two streams every remaining reply in order, and never stalls. |
| MessageLoop.Loop | simple_devicesim.py:137-205 | The whole loop on values. It stalls only when there are replies and the receipts have run out. |
| MessageLoop.PhaseOneStalls | simple_devicesim.py:159-188 | Phase one waits for ever exactly when fewer non-empty receipts arrive than remain to be counted. |
| MessageLoop.PhaseOneLeaves | simple_devicesim.py:159-188 | A phase one that ends leaves the receipts after the last counted message. |
| MessageLoop.PhaseOneTrace | simple_devicesim.py:162-188 | Phase one answers with replies 0 … min(ReceiveCount, len(replies)) − 1, in order. Further messages are counted but not answered. |
| MessageLoop.PhaseTwoTrace | simple_devicesim.py:190-205 | Phase two streams each remaining reply once, in increasing index order. |
| MessageLoop.PlanSplits | simple_devicesim.py:159-205 | The plan is the answered prefix followed by the streamed rest. |
| MessageLoop.LoopFollowsPlan | simple_devicesim.py:137-205 | Unless it stalls, the loop dispatches the replies exactly as the plan says. |
| MessageLoop.LoopStalls | simple_devicesim.py:159-188 | The loop stalls exactly when replies exist and fewer than ReceiveCount non-empty messages arrive. |
| MessageLoop.PhaseOneConsumes | simple_devicesim.py:159-191 | Phase one consumes the receipts up to the ReceiveCount-th counted message and no further. Phase two starts at the reply after the last one used. |
| MessageLoop.PlanDispatchesEachOnce | simple_devicesim.py:174-205 | Every reply is dispatched once, at its own position: answered when its index is below ReceiveCount, streamed otherwise. No reply runs twice. |
| MessageLoop.NoRepliesNoTraffic | simple_devicesim.py:142-144 | Without replies the loop returns before any receive or send. |
| MessageLoop.AnswerReply | simple_devicesim.py:180-184 | Builds the reply's schedule and runs `execute_reply_schedule` on it unless it is empty. |
| MessageLoop.StreamReply | simple_devicesim.py:199-203 | Builds the reply's schedule and runs `execute_continuous_schedule` on it unless it is empty. |
| MessageLoop.RunMessageLoop | simple_devicesim.py:137-207 | The connection ends as `Loop` says, and the method reports whether phase one stalled. |
| Generator.Modulus | generate_test_data.py:33 | 2^bits is positive. |
| Generator.WidthBounds | generate_test_data.py:31-35 | 2^bits is 256^(bits/8). The signed half is half of it, and min_value < 0 < max_unsigned. |
| Generator.LowBits | generate_test_data.py:232 | `value & max_unsigned` lies in [0, 2^bits). |
| Generator.LowBitsOfNegative | generate_test_data.py:232 | For −2^bits ≤ v < 0, `v & max_unsigned` is v + 2^bits. |
| Generator.ClampValue | generate_test_data.py:226-235 | The result lies in [0, 2^bits−1] and in-range values are unchanged. Negatives in [min_value, −1] become v + 2^bits, values below min_value saturate to 2^(bits−1), and values above max_unsigned saturate to max_unsigned. |
| Generator.ClampIdempotent | generate_test_data.py:226-235 | Clamping twice is clamping once. |
| Generator.ParseHexValue | generate_test_data.py:64-70 | `int(value, 16)`, not clamped. It fails exactly when the text is not a hex integer, and the error names the text. Only a leading minus sign gives a negative value. |
| Generator.ParseDecimalValue | generate_test_data.py:72-89 | A parsed decimal lies in [0, max_unsigned]. |
| Generator.DecimalIsClamped | generate_test_data.py:72-89 | `parse_decimal_value` is `clamp_value` of `int()`, and an error where `int()` raises. |
| Generator.DecimalOfParsed | generate_test_data.py:72-86 | Every integer `int()` reads is clamped like `clamp_value`. |
| Generator.ToParam | generate_test_data.py:105-114 | `PFloat` is any argument containing a `.`, including one `float()` rejects, which the source keeps as a string. Otherwise it is the integer `int()` reads from it, or text when `int()` fails. |
| Generator.ToParamOfInt | generate_test_data.py:108-111 | The text of any integer is read back as that integer argument. |
| Generator.AsInt | generate_test_data.py:177-184 | `int()` on an argument succeeds exactly for an integer argument and returns it. Anything else is a non-integer error. |
| Generator.ClampedArg | generate_test_data.py:141-143 | A clamped argument lies in the width's range. |
| Generator.PyMod | generate_test_data.py:168-189 | Python's `%` takes the sign of the divisor. |
| Generator.Square | generate_test_data.py:137-144 | The square wave's value lies in the width's range. |
| Generator.Qrs | generate_test_data.py:171-198 | The QRS value lies in the width's range. |
| Generator.FunctionValue | generate_test_data.py:117-224 | Every function value lies in [0, max_unsigned]. |
| Generator.Params | generate_test_data.py:102-114 | The arguments are the converted words after the name, in order. |
| Generator.ParseFunctionCall | generate_test_data.py:91-224 | A function call's value lies in [0, max_unsigned]. |
| Generator.HexNonNegative | generate_test_data.py:64-67 | A `0x` literal never reads as negative. |
| Generator.ProcessField | generate_test_data.py:237-255 | Every field value is non-negative, and only a hex literal can exceed max_unsigned. |
| Generator.HexFieldUnclamped | generate_test_data.py:242-243 | A `0x`/`0X` field is `int(…, 16)` of it, unclamped. |
| Generator.NeitherHexNorCall | generate_test_data.py:242-250 | A field starting with a minus sign or with digits is neither hex nor a call. |
| Generator.DecimalDispatch | generate_test_data.py:250-251 | A stripped field of minus signs and digits that is neither hex nor a call goes to `parse_decimal_value`. |
| Generator.DigitsDecimal | generate_test_data.py:72-86 | A digit string parses to the clamped value of its digits. |
| Generator.DigitsField | generate_test_data.py:249-251 | A digit-string field is the clamped value of its digits. |
| Generator.NegativeDecimal | generate_test_data.py:72-82 | One minus sign before digits parses to the clamped negative value. |
| Generator.NegativeField | generate_test_data.py:249-251 | A field of one minus sign and digits is the clamped negative value. |
| Generator.ManyMinusesRejected | generate_test_data.py:72-89 | Two or more minus signs pass the `lstrip('-').isdigit()` test, but `int()` rejects them, giving an invalid-decimal error. |
| Generator.DoubleMinusNotInt | generate_test_data.py:75 | `int()` rejects a second sign. |
| Generator.IntFieldRoundTrip | generate_test_data.py:237-251 | Printing any integer and reading it back as a field gives its clamped value. |
| Generator.NegativeRoundTrip | generate_test_data.py:249-251 | As above, for negative integers. |
| Generator.NatRoundTrip | generate_test_data.py:249-251 | As above, for natural numbers. |
| Generator.UnknownFunctionIsZero | generate_test_data.py:217-224 | `crc` and every unknown name evaluate to 0. |
| Generator.ChecksumOf | generate_test_data.py:200-206 | `checksum` is within the width, and 0 when the sample has no regular values. |
| Generator.InverseChecksumOf | generate_test_data.py:208-215 | `inverse_checksum` is within the width, and 0 when the sample has no regular values. |
| Generator.ChecksumsCancel | generate_test_data.py:200-215 | When the regular values sum to at most 2^(bits−1), (sum + inverse_checksum) and (checksum + inverse_checksum) are 0 modulo 2^bits. |
| Generator.InverseChecksumSaturates | generate_test_data.py:208-215 | Above 2^(bits−1) the negated sum saturates to 2^(bits−1). |
| Generator.ChecksumsDoNotCancelAboveHalf | generate_test_data.py:208-215 | With 8 bits and a sum of 129 the pair leaves 1, so the bound of `ChecksumsCancel` is tight. |
| Generator.SquarePeriodic | generate_test_data.py:137-144 | The square wave repeats every 40 samples. |
| Generator.DefaultWavesPeriodic | generate_test_data.py:161-197 | The default sawtooth repeats every 100 samples and the default QRS every 16. |
| Generator.QrsPeriodic | generate_test_data.py:171-186 | A QRS with a positive R period repeats with that period. |
| Generator.QrsPhases | generate_test_data.py:173-186 | With c = index mod r_period, the QRS value is the clamped r_val at c = 0, q_val up to q_samples, s_val up to q_samples + s_samples, and 0 otherwise. |
| Generator.BareCall | generate_test_data.py:94-101 | A bracketed bare name is a call of the lower-cased name without arguments. |
| Generator.ChecksumFieldOfName | generate_test_data.py:272-278 | A bracketed bare name goes to the checksum pass exactly when it is `checksum` or `inverse_checksum`, case-sensitively. |
| Generator.ChecksumSpelling | generate_test_data.py:200-280 | Every spelling of `checksum` evaluates as the checksum of the data it sees, but only the lower-case one waits for the checksum pass. |
| Generator.ChecksumDispatch | generate_test_data.py:200-206 | `checksum` evaluates to the masked sum of the regular values, or 0 without any. |
| Generator.DefinitionFieldsSound | generate_test_data.py:47-54 | Each field is a stripped, non-empty, non-comment line of the file, and there are at most as many fields as lines. |
| Generator.DefinitionFieldsComplete | generate_test_data.py:47-54 | Every line that is non-empty and not a comment once stripped contributes its stripped text. |
| Generator.DefinitionFieldsAppend | generate_test_data.py:47-54 | Fields are kept in file order: one more line appends its stripped text exactly when it is kept. |
| Generator.ParseDefinitionFile | generate_test_data.py:42-56 | The filtering loop returns `DefinitionFields` of the lines. |
| Generator.ChecksumMarks | generate_test_data.py:271-280 | Marks each field exactly when it is a checksum field. |
| Generator.IndicesWhere | generate_test_data.py:269-280 | The indices collected are at most the fields seen. |
| Generator.IndicesBelow | generate_test_data.py:269-280 | Every collected index is a field index. |
| Generator.IndicesIncreasing | generate_test_data.py:269-280 | The collected indices are in increasing field order. |
| Generator.IndicesMembers | generate_test_data.py:269-280 | An index is collected exactly when its field has the mark. |
| Generator.RegularIndices | generate_test_data.py:270-280 | The regular fields are field indices. |
| Generator.ChecksumIndices | generate_test_data.py:269-276 | The checksum fields are field indices. |
| Generator.PassesPartition | generate_test_data.py:268-280 | Every field is in exactly one pass: in the checksum pass exactly when it is a checksum field. Both passes keep file order. |
| Generator.PassesCount | generate_test_data.py:268-280 | The two passes hold the fields between them. |
| Generator.EvalFields | generate_test_data.py:289-297 | A pass keeps the sample's length. |
| Generator.EvalFieldsStores | generate_test_data.py:289-297 | A completed pass stores `process_field` of each of its fields at that field's index. |
| Generator.EvalFieldsKeeps | generate_test_data.py:289-297 | A pass leaves every index outside its own unchanged. |
| Generator.Gather | generate_test_data.py:294 | `current_sample_data` holds the sample's regular values in field order. |
| Generator.Sample | generate_test_data.py:286-297 | A sample has one value per field. |
| Generator.SampleTwoPasses | generate_test_data.py:286-297 | In a complete sample, each regular field holds `process_field` seen with the previous sample's data. The checksum pass sees exactly the regular values in field order, and each checksum field holds `process_field` seen with them. |
| Generator.PackValue | generate_test_data.py:300-307 | A packed value is bits/8 bytes. |
| Generator.PackValueRange | generate_test_data.py:300-307 | Packing succeeds exactly for min_value ≤ v ≤ max_unsigned. Unsigned values decode back to themselves. |
| Generator.PackSampleLayout | generate_test_data.py:300-309 | Values in the unsigned range pack without error into their little-endian layout of len·(bits/8) bytes. |
| Generator.CompleteSampleInRange | generate_test_data.py:286-309 | A sample that is computed and packed without error holds only values in [0, max_unsigned]. |
| Generator.PackedValues | generate_test_data.py:300-309 | A non-negative value that packed fits the width. |
| Generator.AdvanceShape | generate_test_data.py:284-309 | A completed sample appends one well-formed sample and its layout to the file. |
| Generator.SampleStepShape | generate_test_data.py:284-309 | One pass of the sample loop that does not fail adds one in-range sample of `len(fields)` values and its bytes. |
| Generator.GenerateFromShape | generate_test_data.py:284-309 | A run without error writes `count` samples of `len(fields)` in-range values, laid out one after another. |
| Generator.FlattenSize | generate_test_data.py:322 | Well-formed samples take samples·len(fields)·(bits/8) bytes. |
| Generator.Generate | generate_test_data.py:257-323 | `generate_data` on values. Without fields it fails with nothing written. With fields and a count of 0 or less it writes nothing and leaves the generator's state alone. |
| Generator.GenerateSize | generate_test_data.py:257-322 | A run without error writes `count` samples of `len(fields)` values in exactly `count·len(fields)·(bits/8)` bytes, in field order. |
| Generator.DataGenerator.constructor | generate_test_data.py:28-40 | A new generator has the given width, sample index 0 and no sample data. |
| Generator.DataGenerator.FillFields | generate_test_data.py:289-297 | One pass over an array, in place, is `EvalFields`, stopping at the first failure. |
| Generator.DataGenerator.WriteSample | generate_test_data.py:300-309 | The write loop is `PackSample`: the values packed in field order until one cannot be packed. |
| Generator.DataGenerator.GenerateData | generate_test_data.py:257-317 | Returns the written bytes and the error as `Generate` says, and leaves `sample_index` and `current_sample_data` as the run does. |
| Generator.DataGenerator.ProduceSample | generate_test_data.py:285-309 | One loop iteration sets `sample_index` and `current_sample_data` as `Sample` says. A failing pass writes nothing; otherwise the write loop's output is returned. |
| Generator.DataGenerator.Classify | generate_test_data.py:268-280 | The classification loop returns the regular and checksum indices. |
| Periods.ValueBytes | verify_periods_detailed.py:46-56 | A known width has a positive byte count. |
| Periods.ValueBytesOfWidth | verify_periods_detailed.py:46-56 | Exactly 8, 16 and 32 bits are accepted, and they are read at the generator's byte width. |
| Periods.ReadFields | verify_periods_detailed.py:63-68 | The field loop reads at most `num_fields` values. |
| Periods.ReadSamples | verify_periods_detailed.py:61-72 | At most `num_samples` samples are read. |
| Periods.ReadBinary | verify_periods_detailed.py:44-76 | `read_binary_data`: it fails exactly for a width other than 8, 16 or 32. Otherwise it returns at most `num_samples` samples, each of `num_fields` values, and none for a missing file. |
| Periods.ReadBinaryData | verify_periods_detailed.py:44-76 | The nested read loops return `ReadBinary`. An unknown width is an error and a missing file gives no samples. |
| Periods.ReadSample | verify_periods_detailed.py:62-68 | The field loop from a byte position is `ReadFields`, and it leaves a suffix of the file. |
| Periods.ReadFieldsBounded | verify_periods_detailed.py:64-68 | Every decoded value is an unsigned number of the width. |
| Periods.ReadSamplesShape | verify_periods_detailed.py:61-72 | At most `num_samples` samples are read, each of exactly `num_fields` values of the width. |
| Periods.ReadFieldsFull | verify_periods_detailed.py:63-68 | When k·w bytes are there, k values are read and the bytes after them are left. |
| Periods.ReadFieldsShort | verify_periods_detailed.py:64-66 | Fewer than k·w bytes give fewer than k values. |
| Periods.ReadSamplesStops | verify_periods_detailed.py:61-72 | The samples read fill whole records. Fewer than `num_samples` are read only when no further record is complete: decoding stops at the first incomplete sample. |
| Periods.LayoutRead | verify_periods_detailed.py:64-68 | Reading the little-endian layout of in-range values gives them back. |
| Periods.ReadFlattened | verify_periods_detailed.py:61-72 | Decoding the packed samples recovers them. |
| Periods.ReadGenerated | verify_periods_detailed.py:44-73 | A file the generator writes without error reads back as exactly the samples it generated. |
| Periods.MatchCount | verify_periods_detailed.py:88-91 | At most one match per checked position. |
| Periods.PeriodVerdict | verify_periods_detailed.py:78-101 | `verify_period`: an error exactly when the period is negative. A true verdict needs a period below the column length and at least two periods of data. |
| Periods.VerifyPeriod | verify_periods_detailed.py:78-101 | The counting loop's verdict is `PeriodVerdict`: false below two periods or without positions to check, otherwise whether at least 80% of the len − period positions match. |
| Periods.AllClose | verify_periods_detailed.py:88-91 | When every position matches, all len − period positions are counted. |
| Periods.NoneClose | verify_periods_detailed.py:88-91 | When no position matches, none is counted. |
| Periods.PeriodicColumnPasses | verify_periods_detailed.py:78-101 | A column with at least two periods that repeats with the period, within tolerance 1, passes. |
| Periods.AperiodicColumnFails | verify_periods_detailed.py:78-101 | A column that never repeats with the period fails. |
| Periods.SquareColumnPasses | verify_periods_detailed.py:78-101 | A square-wave column of 80 or more samples passes with period 40. |
| Periods.QrsColumnPasses | verify_periods_detailed.py:78-101 | A QRS column with two or more R periods passes with that period. |
| Combine.Stem | combine_files.py:17-18 | One trailing `.bin` is removed, and a name without it is kept. |
| Combine.CombineResult | combine_files.py:13-44 | `combine_files`: on failure the files are unchanged. On success only the output file is added or replaced. |
| Combine.CombineFiles | combine_files.py:13-44 | The loop returns `CombineResult`. |
| Combine.InputNameInjective | combine_files.py:24-25 | Different indices name different inputs, so no input is read twice. |
| Combine.FoundCount | combine_files.py:21-31 | At most one input is counted per index. |
| Combine.FoundNone | combine_files.py:24-37 | `files_found` is 0 exactly when none of `base.1.bin` … `base.count.bin` exists. |
| Combine.CombinedSize | combine_files.py:27-31 | The combined data is as long as the existing inputs together. |
| Combine.CombinedPrefix | combine_files.py:24-31 | Later inputs only append. |
| Combine.InputPlaced | combine_files.py:24-31 | Each existing input appears whole, right after the inputs before it, in index order. |
| Combine.CombineOutcome | combine_files.py:13-44 | Success exactly when some input exists. Then the output has the inputs' total length and no other file changes. Otherwise nothing is written. |
| Text.Strip | generate_test_data.py:48 | `strip()` leaves no white space at either end. |
| Text.StripIdempotent | generate_test_data.py:239 | Stripping twice is stripping once, so `process_field`'s strip keeps the fields unchanged. |
| Text.Lower | generate_test_data.py:101 | `lower()` lower-cases each character. |
| Text.ParseIntToString | simple_devicesim.py:35 | `int(str(n)) == n` for every integer. |
| Text.IntToStringIsOne | simple_devicesim.py:33 | `str(n) == "1"` exactly for 1. |
| StringOrder.Sort | simple_devicesim.py:65 | `sorted()` returns a sorted permutation of its input. |
| StringOrder.SortMembers | simple_devicesim.py:65 | `sorted()` keeps exactly the input's strings. |
| Bytes.DecodeEncode | generate_test_data.py:307 | Unpacking a little-endian value that fits the width returns it. |

## Left out

- Sockets, the `accept` loop, `main` and the WaitToStart gate are left out. The transport is a
  script of send outcomes and receipts; the remaining data flow is the model's parameters.
- `send_file` does not read a file here. A send's outcome comes from the script, and the model
  logs the path and the time of each successful send, not its bytes.
- Wall-clock time is an integer millisecond clock that only the simulator's own waits advance.
  The source measures floating-point seconds (`delay / 1000.0`), so ties between queue entries
  can break differently there.
- The zero-byte liveness probe and the 1 ms sleep of the outer continuous loop are left out
  (simple_devicesim.py:305-315). They only detect a lost connection, which the model has as
  failing sends.
- The schedules `run_message_loop` builds only for printing (simple_devicesim.py:149-154) are
  left out, because they change nothing. Prints are also left out.
- YAML parsing, regular-expression matching, `os.listdir` and `os.path.isfile` are parameters:
  a parsed `Document`, an abstract `Matcher`, and a `Directory` value.
- A missing `file name`, `delay` or `repeat` key raises `KeyError` in the source. `Replies:
  null` and scalars of unexpected types are not modelled either: every rule carries the three
  fields.
- Generator.FunctionValue: `random`, `sine`, `triangle` and `sawtooth` with a range compute
  with floats or randomness. They take their unclamped integer from a `Waveform` parameter;
  the result is then clamped as in the source. The parameter is a function of the function
  name, the sample index and the arguments, so two identical `<random a b>` fields of one
  sample get the same value in the model, where the source draws twice.
- Generator.AsInt: float arguments (`'.' in param`) are not converted. A float or text argument
  to `square` or `qrs` is a `NonIntegerArgument` error, where the source would compute with it
  or raise. The ranged waveforms pass their arguments unconverted to the `Waveform` parameter.
- Generator.Square: only integer `min`/`max` arguments are modelled, for the reason above.
- Generator.Qrs: only integer arguments are modelled; a zero R period is a `ZeroPeriod` error,
  the `ZeroDivisionError` of the source.
- Generator.DataGenerator.constructor: a width other than 8, 16 or 32 raises `KeyError` in the
  source. The model's `Bits` type admits only those three.
- `sys.exit(1)` and the uncaught exceptions of the generator are `GenError` results. The
  source's message text is printed and not modelled.
- The bytes of a sample written before a packing error stay in the output, as in the source.
  The output file's other I/O errors are not modelled.
- `str.lower` and `str.isdigit` are modelled on ASCII. Python also lower-cases non-ASCII
  letters, and its `int()` also accepts non-ASCII digits, which the model rejects. White
  space (`str.isspace`, used by `int()` and `strip()`) is Python's full set.
- Transport.Connection.ReceiveWithTimeout: once the receipt script is used up it returns None.
  MessageLoop.RunMessageLoop then reports a stall where the source would go on waiting for
  ever.
- Continuous.ExecuteContinuousSchedule: the busy poll of `time.time()` is replaced by one wait
  until the head of the queue is due.
- Continuous.SoloGroupSentInFull: the exact count `max(1, r)` is proved only for runs that end
  with an empty queue. A run that ends with a failed send, which every schedule with a group
  that repeats for ever eventually does, is only bounded by `max(1, r)`. The model does not
  state whether the finite message had finished before the failure.
- Periods.VerifyPeriod: the 80% threshold is compared exactly (5·matches ≥ 4·checks). The
  source compares a floating-point percentage. A negative period is an error, where the
  source's index runs past the end.
- `combine_files` exceptions (unreadable inputs, an output that cannot be written,
  directories in place of files) are not modelled. The file system is a map from names to
  contents.
