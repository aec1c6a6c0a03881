# Badger rewards bot — verified model of its reconciliation, formatting and cache logic

The rewards bot watches the `RootUpdated` event of the Badger rewards tree
contract. It is meant to post each new Merkle-root update to a Discord
channel as a fixed-width text block, and it answers `/rewards` with the
latest one. As written, the update task's call at `bot.py` line 72 raises on
the first new event, so nothing is posted (see "## Findings"). A helper file
next to it downloads the off-chain rewards tree for a content hash. It
accepts the tree only when the tree agrees with the on-chain Merkle data.

This Dafny project models those pieces in three modules:

- `Rendering` (`rendering.dfy`) models how field values become text.
  Integers go through Python's `str`: decimal, a leading `-` for negatives,
  no leading zeros. Byte strings go through web3's `toHex`: `0x` followed by
  two lower-case hex digits per byte. Each rendering has an inverse. The
  lemmas prove that printing loses nothing. `toHex` belongs to web3, a
  library outside this repository. The model gives it the concrete encoding
  web3 uses for bytes. `ToHexInjective`, and through it
  `ParseRewardsDataInjective`, depend on that encoding. Python's `hex` on
  integers and `repr` on bytes are also written out. A call on arbitrary
  Python values can reach them.
- `Utils` (`utils.dfy`) covers three things:
  - the reconciliation check of `fetch_rewards_tree`, as a pure validator
    that returns the tree or one of `RootMismatch`, `StaleData` and
    `FutureData`;
  - the name of the rewards file, and the local path or S3 bucket and key it
    is read from;
  - the fixed-width `formatter`.

  Python's `"\n".join` and `str.split("\n")` are written out so that the
  line structure of a message can be stated and proved.
- `Bot` (`bot.dfy`) covers four things:
  - `_parse_rewards_data`: the seven fields, in their fixed order, run
    through the same formatter;
  - the same function called on Python values (`ParseRewardsCall`), which
    states when the call raises;
  - the two ways a call's arguments can be built from an event's argument
    mapping: spreading the mapping itself passes its keys, and spreading its
    values passes the values;
  - the class `RewardsBot`.

  The class holds the cached message (`cache`) and the messages posted to
  the update channel (`outbox`). Its constructor is the start-up
  initialisation. `UpdateRewardsAsWritten` is one tick of the update task as
  the code stands. `UpdateRewards` is the tick as intended. `Rewards` is the
  `/rewards` command.

The formatting code in `bot.py` (lines 53-54) is a copy of `formatter`
(`utils.py` lines 51-55). The model defines it once, as `Utils.Formatter`,
and `Bot.ParseRewardsData` uses it.

## Model

| member | source | states |
|---|---|---|
| `Utils.ValidateTree` | utils.py:36-48 | In test mode the tree is accepted unchecked. Outside test mode it is accepted exactly when its root equals the on-chain root and `0 <= blockNumber - endBlock < 6500`. An accepted tree is returned unchanged. A different root gives `RootMismatch`. With the root matching, `StaleData` is returned exactly when the end block is at least 6500 blocks away in either direction, because the `abs` check runs first. `FutureData` is returned exactly when the end block lies 1 to 6499 blocks after the on-chain block |
| `Utils.FetchRewardsTree` | utils.py:28-48 | In test mode the result is the tree read from `data/rewards.json`, accepted as is. Otherwise the tree is read from bucket `badger-json`, key `rewards/rewards-1-<contentHash>.json`. It is accepted exactly when it is reconciled with the Merkle data, and then returned unchanged. A rejection is the validator's error |
| `Utils.PastFileName` | utils.py:32 | The file name is `rewards-1-`, then the content hash, then `.json` |
| `Utils.PastFileNameInjective` | utils.py:32 | Distinct content hashes give distinct file names |
| `Utils.DownloadLocation` | utils.py:7-20 | Test mode reads the fixed local file `data/rewards.json` and ignores the name. Otherwise the read is from bucket `badger-json` under key `rewards/` plus the file name |
| `Utils.PadRight` | utils.py:53 | The key is padded to the larger of its own length and the width. The key is kept whole and is never truncated. The padding is spaces only |
| `Utils.FormatLine` | utils.py:53 | A line is the key, then spaces up to column 33 (or none past a longer key), then one space, then the value. The key is never truncated |
| `Utils.Formatter` | utils.py:51-55 | The message begins and ends with three backticks. Between them is the newline-join of the formatted lines |
| `Utils.Lines` | utils.py:52-53 | One line per entry, in order. Each line begins with its entry's key and is longer than it |
| `Utils.Join` | utils.py:52-54 | Joining no lines gives the empty string. Otherwise the result begins with the first line, followed by a newline when more lines follow |
| `Utils.FormatterLines` | utils.py:51-55 | Take n >= 1 entries whose keys and values contain no newline. Splitting the text between the fences on newlines gives exactly the n formatted lines, in input order, and that text has exactly n - 1 newlines |
| `Utils.SplitJoin` | utils.py:52-54 | Splitting a newline-join on newlines gives back its lines, when none of them contains a newline |
| `Utils.SplitAfterLine` | utils.py:52-54 | Splitting `a + "\n" + b` gives `a` followed by the lines of `b`, when `a` has no newline |
| `Utils.SplitSingleLine` | utils.py:52-54 | A string without a newline splits into itself alone |
| `Utils.CountJoin` | utils.py:52-54 | Joining n newline-free lines adds exactly n - 1 newlines |
| `Utils.CountConcat` | utils.py:52-54 | Newline counts add up over concatenation |
| `Utils.LineHasNoNewline` | utils.py:53 | A formatted line has no newline when its key and value have none |
| `Rendering.IntToString` | bot.py:53 | `str` of an integer is never empty and begins with `-` exactly when the integer is negative |
| `Rendering.NatToStringDigits` | bot.py:45-51 | The decimal numeral of a natural number is all digits, with no leading zero |
| `Rendering.IntToStringShape` | bot.py:45-51 | `str` of an integer is digits, with a `-` in front exactly when the integer is negative. It never contains a newline |
| `Rendering.ParseNatToString` | bot.py:45-51 | Reading back the decimal numeral of `n` gives `n` |
| `Rendering.ParseIntToString` | bot.py:45-51 | Reading back `str(i)` gives `i` |
| `Rendering.IntToStringInjective` | bot.py:45-51 | Distinct integers print differently |
| `Rendering.ToHex` | bot.py:46-47 | `toHex` of a byte string is `0x` followed by two characters per byte |
| `Rendering.IntToHex` | bot.py:46-47 | `toHex` of an integer is Python's `hex`: `0x` then digits for a non-negative integer, `-0x` then digits for a negative one |
| `Rendering.BytesRepr` | bot.py:53 | `str` of a bytes value starts with `b` and is enclosed in quotes. The quotes are double exactly when the bytes hold a single quote and no double quote |
| `Rendering.HexBodyDigits` | bot.py:46-47 | The hex rendering of bytes consists of lower-case hex digits only |
| `Rendering.ToHexDigits` | bot.py:46-47 | `toHex` is `0x` followed by hex digits only, so it has no newline |
| `Rendering.FromHexBodyInverse` | bot.py:46-47 | Decoding the hex rendering of a byte string gives back the byte string |
| `Rendering.ToHexInjective` | bot.py:46-47 | Distinct byte strings have distinct `toHex` renderings |
| `Bot.ArgValues` | bot.py:71-72 | A decoded event carries seven values: the root and the content hash as bytes, and the other five as integers |
| `Bot.MerkleValues` | bot.py:76-78 | The tuple from `getCurrentMerkleData` holds six values: the root and the content hash as bytes, then four integers |
| `Bot.WithCycle` | bot.py:78 | Spreading the Merkle-data tuple after the cycle binds its six values by position. The event's values are the cycle followed by the tuple's values |
| `Bot.FieldValues` | bot.py:45-51 | Seven values, one per field, none empty. The root and the content hash begin with `0x` |
| `Bot.Fields` | bot.py:44-52 | The dictionary pairs each of the seven field names with the value in the same position, in insertion order |
| `Bot.RewardsFields` | bot.py:44-52 | The dictionary has seven entries. Its keys are, in order, cycle, root, contentHash, startBlock, endBlock, timestamp and blockNumber |
| `Bot.FieldNamesNoNewlines` | bot.py:45-51 | Every key is at most 33 characters long and has no newline |
| `Bot.FieldValuesNoNewlines` | bot.py:45-51 | No rendered value contains a newline |
| `Bot.RewardsFieldsNoNewlines` | bot.py:44-52 | No key and no value of the dictionary contains a newline |
| `Bot.RewardsFieldsDecode` | bot.py:44-52 | The cycle and block/time values read back as the event's integers. The root and the content hash are their `toHex` renderings |
| `Bot.ParseRewardsData` | bot.py:35-54 | The message begins and ends with three backticks |
| `Bot.RewardsMessageLayout` | bot.py:44-54 | The message has exactly seven lines between its fences, with six newlines, in the fixed field order. Each line is the field name padded with spaces to 33 columns, one space, then the rendered value from column 34 on |
| `Bot.ParseRewardsDataInjective` | bot.py:35-54 | Two events that render to the same message are the same event |
| `Bot.Web3ToHex` | bot.py:46-47 | `toHex` raises exactly when it is given text. Bytes and integers give text that begins with `0x` or, for a negative integer, `-` |
| `Bot.Display` | bot.py:53 | The f-string shows an integer as its `str`, text as itself, and bytes as their repr (`BytesRepr`), which begins with `b` |
| `Bot.ParseRewardsCall` | bot.py:35-54 | A call with other than seven arguments raises. With seven arguments it raises at `toHex` exactly when the root or the content hash is text. Otherwise it returns a fenced message |
| `Bot.ArgValuesRender` | bot.py:35-54 | Called with the event's own values, the function returns the event's message |
| `Bot.StartupCallRenders` | bot.py:76-78 | The start-up call, with the cycle followed by the spread Merkle-data tuple, returns the message of that data under that cycle |
| `Bot.EventArgs` | bot.py:72 | The event's argument mapping has seven items: each parameter name, in declaration order, with the event's value for it |
| `Bot.SpreadMapping` | bot.py:72 | Spreading a mapping passes its keys, as text, in order, one per item |
| `Bot.SpreadValues` | bot.py:72 | Spreading a mapping's values passes the values, in order, one per item |
| `Bot.SpreadMappingRaises` | bot.py:72 | Whatever the mapping holds, the call with its keys spread raises. With seven keys it raises at `toHex` on the key in the root's place |
| `Bot.CallAsWritten` | bot.py:72 | The call as written, with the event's argument mapping spread, raises `TypeError` at `toHex` for every event |
| `Bot.CallIntended` | bot.py:72 | The corrected call, with the mapping's values spread, returns the event's message for every event |
| `Bot.SpreadValuesRender` | bot.py:72 | With an event's values spread, the call returns the event's message |
| `Bot.MessagesAt` | bot.py:71-73 | A batch produces one message per event. The i-th message posted is the rendering of the i-th event in log order |
| `Bot.MessagesBatchesCompose` | bot.py:69-73 | Posting the messages of two batches in turn equals posting those of the combined batch |
| `Bot.CacheBatchesCompose` | bot.py:69-73 | Two ticks in a row leave the same cache as one tick over both batches |
| `Bot.LastMessageIsCache` | bot.py:71-73 | After a non-empty batch the cache is the rendering of the last event, which is also the last message posted |
| `Bot.Tick` | bot.py:68-73 | A tick only appends to the posted messages and never drops or changes an earlier one |
| `Bot.AsWrittenTickChangesNothing` | bot.py:71-73 | As written, a tick with at least one new event raises `TypeError` at `toHex` on the first one. The cache keeps its old value and nothing is posted |
| `Bot.TickRendersAll` | bot.py:71-73 | If every call returns a rendering of its event, the tick completes. It posts one rendering per event, in log order, and caches the last |
| `Bot.IntendedTick` | bot.py:71-73 | With each event's values spread, a tick completes. It posts exactly `Messages(events)` and leaves `LatestCache` cached, the state `UpdateRewards` promises |
| `Bot.RewardsBot.constructor` | bot.py:76-78 | At start-up the cache holds the rendering of the current cycle followed by the six values of `getCurrentMerkleData`. Nothing is posted yet |
| `Bot.RewardsBot.RunTick` | bot.py:68-73 | The cache, the posted messages and the outcome are those of the tick over the events, with the given call made on each event |
| `Bot.RewardsBot.UpdateRewardsAsWritten` | bot.py:68-73 | The tick as written, whose call on each event spreads the event's argument mapping. With `AsWrittenTickChangesNothing`: a tick with a new event raises and changes neither the cache nor the posted messages |
| `Bot.RewardsBot.UpdateRewards` | bot.py:68-73 | This is the intended tick: the same loop as `RunTick`, with the event's values passed. One message is posted per new event, in log order. The cache becomes the last event's rendering, and that rendering is the last message posted. An empty batch changes nothing |
| `Bot.RewardsBot.Rewards` | bot.py:57-60 | `/rewards` replies with the cached text and changes nothing |
| `Bot.NewCycleScenario` | bot.py:57-78 | With the intended tick: from start-up, a tick with one new event posts exactly that event's message, and `/rewards` then replies with it |
| `Bot.NewCycleScenarioAsWritten` | bot.py:57-78 | With the tick as written: from start-up, a tick with one new event raises `TypeError` and posts nothing. `/rewards` then still replies with the start-up message |

## Left out

- `download_tree` (utils.py:7-25): the file read, the S3 `get_object` call and JSON decoding are not modelled. `FetchRewardsTree` takes the read as a function from the location to the tree. The location itself is modelled.
- Python's `int(...)` on the tree's `endBlock` (utils.py:40) is not modelled. The tree's `endBlock` is already an integer, so a malformed value that would raise is not modelled.
- A missing `merkleRoot` or `endBlock` key, which would raise `KeyError`, is not modelled. `RewardsTree` carries only the two fields the check reads. Record equality stands for "the document is returned unchanged", so other fields such as `userData` need no modelling.
- Python drops `assert` statements under `-O`. The model treats the three assertions as always active.
- Discord plumbing is not modelled: bot creation, channel lookup, `on_ready`, `bot.run` and logging configuration (bot.py:12-22, bot.py:63-65, bot.py:80-81). Posting to the channel is an append to `outbox`. The `/rewards` reply through the command context is the returned `reply`. Delivery failures are not modelled.
- web3 plumbing is not modelled: the contract binding, ABI loading, the `createFilter` cursor and the two contract calls (bot.py:24-33, bot.py:76-77). Their results are inputs: the event batch of each tick, and the current cycle and Merkle data at start-up. Of web3 itself, only `toHex` is modelled, on bytes, integers and text. The actual field order of the contract's Merkle-data struct is not part of the model. The values are bound by position, as bot.py:78 does.
- asyncio scheduling and the 300-second loop (bot.py:10, bot.py:68) are not modelled. One call of `UpdateRewards` is one tick over a given event sequence. Interleaving of `/rewards` with a running tick is not modelled.
- `Utils.Formatter` takes values that are already rendered as text. `Bot.Display` covers Python's `str` of integers, bytes and text. Other value kinds are not modelled.
- Integers are unbounded. The uint256 range of the on-chain values is not enforced, and Python's integers are unbounded too.
- Token summarisation and price lookups are not in `bot.py` or `utils.py`. `update_rewards` never fetches or validates a tree, and the model follows the code. The `1` in the file name is hard-coded (utils.py:32), as in the model.
- Bot.RewardsBot.UpdateRewards: models the intended tick, which passes each event's values to `_parse_rewards_data`. The code as written spreads the event's argument mapping, which passes its keys, and raises. That tick is `UpdateRewardsAsWritten` (see "## Findings").
- Bot.RewardsBot.UpdateRewards: the clause `events != [] ==> cache == outbox[|outbox| - 1]` assumes that every send succeeds. bot.py:21 looks the channel up at import time, before the bot has logged in, and passes the id as text. `channel` is then `None`, so `channel.send` at bot.py:73 would raise after the cache has been assigned. Send failures are not modelled.
- NewCycleScenario: shows the intended tick. The code as written is `NewCycleScenarioAsWritten`, where the tick raises and nothing is posted.
- The event's ABI file is not part of this model. `EventArgs` takes the event's parameter names to be the seven field names, in that order. `SpreadMappingRaises` holds whatever the mapping's keys are.
- `PyValue` covers integers, bytes and text, the kinds of value that reach `_parse_rewards_data` here. Booleans, `None` and other Python types are not modelled.
- When the update task raises, `tasks.loop` stops and no later tick runs. The model returns `Raised` from the tick and does not model later ticks.

## Findings

| source | as written | input that shows it | evidently intended | confidence | as-written member | corrected member |
|---|---|---|---|---|---|---|
| bot.py:72 | `_parse_rewards_data(*event["args"])` spreads the decoded event's argument mapping. That passes its keys, as text. `web3.toHex` then raises `TypeError` on the text `"root"` (bot.py:46). The cache is not updated, nothing is posted, and the loop task stops | any tick with at least one new `RootUpdated` event | pass the event's values, for example `*event["args"].values()`. Each new event then becomes the cache and is posted, in log order | not executed; relies on web3's decoded `args` being a mapping and on `toHex` refusing text | `Bot.RewardsBot.UpdateRewardsAsWritten`, `Bot.AsWrittenTickChangesNothing` | `Bot.RewardsBot.UpdateRewards`, `Bot.IntendedTick` |
