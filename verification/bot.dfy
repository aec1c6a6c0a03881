/**
 * The rewards bot: it renders each `RootUpdated` event of the rewards tree
 * contract as a fixed-width message, keeps the latest message as its cached
 * rewards data, is meant to post every new one to the update channel, and
 * echoes the cache on the `/rewards` command. The update task as written
 * spreads each event's argument mapping into the call, which passes the
 * mapping's keys and raises; both that and the intended tick are modelled.
 */
module Bot {
  import opened Rendering
  import opened Utils

  /** The arguments of a `RootUpdated` event, in the order the event emits them. */
  datatype RootUpdated = RootUpdated(
    cycle: int,
    root: seq<byte>,
    contentHash: seq<byte>,
    startBlock: int,
    endBlock: int,
    timestamp: int,
    blockNumber: int)

  /** The six values `getCurrentMerkleData` returns, bound positionally to the
      parameters that follow `cycle` in `_parse_rewards_data`. */
  datatype MerkleData = MerkleData(
    root: seq<byte>,
    contentHash: seq<byte>,
    startBlock: int,
    endBlock: int,
    timestamp: int,
    blockNumber: int)

  // ---------------------------------------------------------------------------
  // Python values, as a call to `_parse_rewards_data` receives them
  // ---------------------------------------------------------------------------

  /** The kinds of Python value that reach `_parse_rewards_data`. */
  datatype PyValue = PyInt(i: int) | PyBytes(b: seq<byte>) | PyStr(s: string)

  /** Why a call to `_parse_rewards_data` raises; Python reports both as a `TypeError`. */
  datatype CallError = WrongArity | UnsupportedHexType

  /** The event's values as Python values, in the order the event declares them. */
  function ArgValues(ev: RootUpdated): (values: seq<PyValue>)
    ensures |values| == 7
    ensures values[1] == PyBytes(ev.root) && values[2] == PyBytes(ev.contentHash)
    ensures forall i :: 0 <= i < 7 && i != 1 && i != 2 ==> values[i].PyInt?
  {
    [ PyInt(ev.cycle), PyBytes(ev.root), PyBytes(ev.contentHash), PyInt(ev.startBlock),
      PyInt(ev.endBlock), PyInt(ev.timestamp), PyInt(ev.blockNumber) ]
  }

  /** The tuple `getCurrentMerkleData` returns, as Python values. */
  function MerkleValues(data: MerkleData): (values: seq<PyValue>)
    ensures |values| == 6
    ensures values[0] == PyBytes(data.root) && values[1] == PyBytes(data.contentHash)
    ensures forall i :: 2 <= i < 6 ==> values[i].PyInt?
  {
    [ PyBytes(data.root), PyBytes(data.contentHash), PyInt(data.startBlock),
      PyInt(data.endBlock), PyInt(data.timestamp), PyInt(data.blockNumber) ]
  }

  /** `_parse_rewards_data(cycle, *rewards_data)`: spreading the tuple passes its elements in
      order, so they bind by position to the parameters after `cycle`. */
  function WithCycle(cycle: int, data: MerkleData): (ev: RootUpdated)
    ensures ArgValues(ev) == [PyInt(cycle)] + MerkleValues(data)
  {
    RootUpdated(cycle, data.root, data.contentHash, data.startBlock, data.endBlock, data.timestamp, data.blockNumber)
  }

  /** The keys of the message, in the order the dictionary is built. */
  const FieldNames: seq<string> :=
    ["cycle", "root", "contentHash", "startBlock", "endBlock", "timestamp", "blockNumber"]

  /** The values of the dictionary `_parse_rewards_data` builds: the digests through toHex, the numbers through str. */
  function FieldValues(ev: RootUpdated): (values: seq<string>)
    ensures |values| == 7
    ensures forall i :: 0 <= i < 7 ==> |values[i]| >= 1
    ensures |values[1]| >= 2 && values[1][..2] == "0x" && |values[2]| >= 2 && values[2][..2] == "0x"
  {
    [ IntToString(ev.cycle), ToHex(ev.root), ToHex(ev.contentHash),
      IntToString(ev.startBlock), IntToString(ev.endBlock),
      IntToString(ev.timestamp), IntToString(ev.blockNumber) ]
  }

  /** The dictionary `_parse_rewards_data` builds from seven rendered values: each keyed by its
      field name, in insertion order. */
  function Fields(values: seq<string>): (fields: seq<Entry>)
    requires |values| == 7
    ensures |fields| == |FieldNames| == 7
    ensures forall i :: 0 <= i < 7 ==> fields[i].key == FieldNames[i] && fields[i].value == values[i]
  {
    seq(7, i requires 0 <= i < 7 => Entry(FieldNames[i], values[i]))
  }

  /** The dictionary `_parse_rewards_data` builds for an event, in insertion order. */
  function RewardsFields(ev: RootUpdated): (fields: seq<Entry>)
    ensures |fields| == |FieldNames| == 7
    ensures forall i :: 0 <= i < 7 ==> fields[i].key == FieldNames[i]
  {
    Fields(FieldValues(ev))
  }

  lemma FieldNamesNoNewlines()
    ensures forall i :: 0 <= i < |FieldNames| ==> '\n' !in FieldNames[i] && |FieldNames[i]| <= KeyWidth
  {
  }

  lemma FieldValuesNoNewlines(ev: RootUpdated)
    ensures forall i :: 0 <= i < 7 ==> '\n' !in FieldValues(ev)[i]
  {
    IntToStringShape(ev.cycle);
    IntToStringShape(ev.startBlock);
    IntToStringShape(ev.endBlock);
    IntToStringShape(ev.timestamp);
    IntToStringShape(ev.blockNumber);
    ToHexDigits(ev.root);
    ToHexDigits(ev.contentHash);
  }

  /** No key or value of the dictionary contains a newline. */
  lemma RewardsFieldsNoNewlines(ev: RootUpdated)
    ensures NoNewlines(RewardsFields(ev))
  {
    FieldNamesNoNewlines();
    FieldValuesNoNewlines(ev);
  }

  /** Each value of the dictionary reads back as the event field it renders. */
  lemma RewardsFieldsDecode(ev: RootUpdated)
    ensures var fields := RewardsFields(ev);
      && IsNumeral(fields[0].value) && ParseInt(fields[0].value) == ev.cycle
      && fields[1].value == ToHex(ev.root)
      && fields[2].value == ToHex(ev.contentHash)
      && IsNumeral(fields[3].value) && ParseInt(fields[3].value) == ev.startBlock
      && IsNumeral(fields[4].value) && ParseInt(fields[4].value) == ev.endBlock
      && IsNumeral(fields[5].value) && ParseInt(fields[5].value) == ev.timestamp
      && IsNumeral(fields[6].value) && ParseInt(fields[6].value) == ev.blockNumber
  {
    ParseIntToString(ev.cycle);
    ParseIntToString(ev.startBlock);
    ParseIntToString(ev.endBlock);
    ParseIntToString(ev.timestamp);
    ParseIntToString(ev.blockNumber);
  }

  /** `_parse_rewards_data`: the event's fields run through the formatter. */
  function ParseRewardsData(ev: RootUpdated): (msg: string)
    ensures |msg| >= 2 * |Fence|
    ensures msg[..|Fence|] == Fence && msg[|msg| - |Fence|..] == Fence
  {
    Formatter(RewardsFields(ev))
  }

  /** Every rewards message has exactly seven lines between its fences, one per field
      in the fixed order; each holds the field name padded with spaces to the key width,
      one space, and from the column after that the rendered value. */
  lemma RewardsMessageLayout(ev: RootUpdated)
    ensures var lines := SplitLines(Unfenced(ParseRewardsData(ev)));
      && |lines| == 7
      && CountNewlines(Unfenced(ParseRewardsData(ev))) == 6
      && forall i :: 0 <= i < 7 ==>
           && |lines[i]| == KeyWidth + 1 + |RewardsFields(ev)[i].value|
           && lines[i][..KeyWidth + 1] == PadRight(FieldNames[i], KeyWidth) + " "
           && lines[i][KeyWidth + 1..] == RewardsFields(ev)[i].value
  {
    var fields := RewardsFields(ev);
    RewardsFieldsNoNewlines(ev);
    FieldNamesNoNewlines();
    FormatterLines(fields);
    var lines := Lines(fields);
    forall i | 0 <= i < 7
      ensures |lines[i]| == KeyWidth + 1 + |fields[i].value|
      ensures lines[i][..KeyWidth + 1] == PadRight(FieldNames[i], KeyWidth) + " "
      ensures lines[i][KeyWidth + 1..] == fields[i].value
    {
      assert lines[i] == PadRight(FieldNames[i], KeyWidth) + " " + fields[i].value;
    }
  }

  /** The message determines the event: distinct events are never announced with the same text. */
  lemma ParseRewardsDataInjective(e1: RootUpdated, e2: RootUpdated)
    requires ParseRewardsData(e1) == ParseRewardsData(e2)
    ensures e1 == e2
  {
    var f1, f2 := RewardsFields(e1), RewardsFields(e2);
    RewardsMessageLayout(e1);
    RewardsMessageLayout(e2);
    RewardsFieldsDecode(e1);
    RewardsFieldsDecode(e2);
    var lines := SplitLines(Unfenced(ParseRewardsData(e1)));
    forall i | 0 <= i < 7
      ensures f1[i].value == f2[i].value
    {
      assert f1[i].value == lines[i][KeyWidth + 1..] == f2[i].value;
    }
    ToHexInjective(e1.root, e2.root);
    ToHexInjective(e1.contentHash, e2.contentHash);
  }

  // ---------------------------------------------------------------------------
  // The call `_parse_rewards_data(...)` on Python values
  // ---------------------------------------------------------------------------

  /** web3's `toHex` on a primitive: bytes are hex-encoded, an integer goes through `hex`, and
      text is refused with a `TypeError`. */
  function Web3ToHex(v: PyValue): (r: Result<string, CallError>)
    ensures r.Err? <==> v.PyStr?
    ensures r.Err? ==> r.error == UnsupportedHexType
    ensures r.Ok? ==> |r.value| >= 2 && (r.value[..2] == "0x" || r.value[0] == '-')
  {
    match v
    case PyBytes(b) => Ok(ToHex(b))
    case PyInt(i) => Ok(IntToHex(i))
    case PyStr(_) => Err(UnsupportedHexType)
  }

  /** The text an f-string gives a value, which is Python's `str` of it. */
  function Display(v: PyValue): (s: string)
    ensures v.PyInt? ==> s == IntToString(v.i)
    ensures v.PyBytes? ==> s == BytesRepr(v.b) && |s| >= 3 && s[0] == 'b'
    ensures v.PyStr? ==> s == v.s
  {
    match v
    case PyInt(i) => IntToString(i)
    case PyBytes(b) => BytesRepr(b)
    case PyStr(t) => t
  }

  /** `_parse_rewards_data(*args)` for any positional arguments: a call with other than seven
      of them raises, the dictionary then raises at `toHex` when the root or the content hash is
      text, and otherwise the message is the seven rendered values run through the formatter. */
  function ParseRewardsCall(args: seq<PyValue>): (r: Result<string, CallError>)
    ensures r == Err(WrongArity) <==> |args| != 7
    ensures r == Err(UnsupportedHexType) <==> |args| == 7 && (args[1].PyStr? || args[2].PyStr?)
    ensures r.Ok? ==> |r.value| >= 2 * |Fence| && r.value[..|Fence|] == Fence
  {
    if |args| != 7 then Err(WrongArity)
    else
      var root, contentHash := Web3ToHex(args[1]), Web3ToHex(args[2]);
      if root.Err? then Err(root.error)
      else if contentHash.Err? then Err(contentHash.error)
      else Ok(Formatter(Fields([Display(args[0]), root.value, contentHash.value, Display(args[3]),
                                Display(args[4]), Display(args[5]), Display(args[6])])))
  }

  /** Called with the event's own values, the call returns the event's message. */
  lemma ArgValuesRender(ev: RootUpdated)
    ensures ParseRewardsCall(ArgValues(ev)) == Ok(ParseRewardsData(ev))
  {
  }

  /** At start-up, spreading the Merkle-data tuple after the cycle gives the message of the
      cycle followed by that data. */
  lemma StartupCallRenders(cycle: int, data: MerkleData)
    ensures ParseRewardsCall([PyInt(cycle)] + MerkleValues(data)) == Ok(ParseRewardsData(WithCycle(cycle, data)))
  {
  }

  /** A decoded event's `args`: its parameter names mapped to its values, in declaration order. */
  type ArgMapping = seq<(string, PyValue)>

  /** The `args` mapping of a `RootUpdated` event, keyed by the event's parameter names. */
  function EventArgs(ev: RootUpdated): (m: ArgMapping)
    ensures |m| == 7
    ensures forall i :: 0 <= i < 7 ==> m[i] == (FieldNames[i], ArgValues(ev)[i])
  {
    var values := ArgValues(ev);
    seq(7, i requires 0 <= i < 7 => (FieldNames[i], values[i]))
  }

  /** `f(*m)` for a mapping `m`: iterating a mapping yields its keys, so the keys are passed, as text. */
  function SpreadMapping(m: ArgMapping): (args: seq<PyValue>)
    ensures |args| == |m|
    ensures forall i :: 0 <= i < |m| ==> args[i].PyStr? && args[i].s == m[i].0
  {
    seq(|m|, i requires 0 <= i < |m| => PyStr(m[i].0))
  }

  /** `f(*m.values())`: the mapping's values are passed, in order. */
  function SpreadValues(m: ArgMapping): (args: seq<PyValue>)
    ensures |args| == |m|
    ensures forall i :: 0 <= i < |m| ==> args[i] == m[i].1
  {
    seq(|m|, i requires 0 <= i < |m| => m[i].1)
  }

  /** Spreading a mapping makes the call raise whatever the mapping holds: with seven keys, at
      `toHex` on the key that stands in for the root. */
  lemma SpreadMappingRaises(m: ArgMapping)
    ensures ParseRewardsCall(SpreadMapping(m)).Err?
    ensures |m| == 7 ==> ParseRewardsCall(SpreadMapping(m)) == Err(UnsupportedHexType)
  {
  }

  /** The call at bot.py:72 as written: the event's argument mapping is spread, passing its keys. */
  function CallAsWritten(ev: RootUpdated): (r: Result<string, CallError>)
    ensures r == Err(UnsupportedHexType)
  {
    ParseRewardsCall(SpreadMapping(EventArgs(ev)))
  }

  /** The call as intended: the values of the event's argument mapping are spread. */
  function CallIntended(ev: RootUpdated): (r: Result<string, CallError>)
    ensures r == Ok(ParseRewardsData(ev))
  {
    SpreadValuesRender(ev);
    ParseRewardsCall(SpreadValues(EventArgs(ev)))
  }

  /** Spreading the values of an event's mapping makes the call return the event's message. */
  lemma SpreadValuesRender(ev: RootUpdated)
    ensures ParseRewardsCall(SpreadValues(EventArgs(ev))) == Ok(ParseRewardsData(ev))
  {
  }

  /** `f` applied to every element, in order. */
  function MapSeq<A, B>(f: A -> B, xs: seq<A>): (ys: seq<B>)
    ensures |ys| == |xs|
    decreases |xs|
  {
    if xs == [] then [] else MapSeq(f, xs[..|xs| - 1]) + [f(xs[|xs| - 1])]
  }

  lemma {:induction false} MapSeqAt<A, B>(f: A -> B, xs: seq<A>, i: nat)
    requires i < |xs|
    ensures MapSeq(f, xs)[i] == f(xs[i])
    decreases |xs|
  {
    if i < |xs| - 1 {
      var init := xs[..|xs| - 1];
      assert init[i] == xs[i];
      MapSeqAt(f, init, i);
    }
  }

  lemma {:induction false} MapSeqConcat<A, B>(f: A -> B, a: seq<A>, b: seq<A>)
    ensures MapSeq(f, a + b) == MapSeq(f, a) + MapSeq(f, b)
    decreases |b|
  {
    if b == [] {
      assert a + b == a;
    } else {
      var ab, init := a + b, b[..|b| - 1];
      assert ab[..|ab| - 1] == a + init && ab[|ab| - 1] == b[|b| - 1];
      MapSeqConcat(f, a, init);
    }
  }

  /** The messages a batch of events produces, in log order. */
  function Messages(events: seq<RootUpdated>): seq<string>
  {
    MapSeq(ParseRewardsData, events)
  }

  /** The cached rewards data after a batch: the last event's message, or the old cache for an empty batch. */
  function LatestCache(cache: string, events: seq<RootUpdated>): string
  {
    if events == [] then cache else ParseRewardsData(events[|events| - 1])
  }

  /** Two ticks in a row leave the same cache as one tick over both batches. */
  lemma CacheBatchesCompose(cache: string, a: seq<RootUpdated>, b: seq<RootUpdated>)
    ensures LatestCache(LatestCache(cache, a), b) == LatestCache(cache, a + b)
  {
    var ab := a + b;
    if b == [] {
      assert ab == a;
    } else {
      assert ab[|ab| - 1] == b[|b| - 1];
    }
  }

  /** Exactly one message per event: the i-th message posted for a batch is the rendering of its i-th event. */
  lemma MessagesAt(events: seq<RootUpdated>, i: nat)
    requires i < |events|
    ensures |Messages(events)| == |events|
    ensures Messages(events)[i] == ParseRewardsData(events[i])
  {
    MapSeqAt(ParseRewardsData, events, i);
  }

  /** Two ticks in a row post the same messages as one tick over both batches. */
  lemma MessagesBatchesCompose(a: seq<RootUpdated>, b: seq<RootUpdated>)
    ensures Messages(a) + Messages(b) == Messages(a + b)
  {
    MapSeqConcat(ParseRewardsData, a, b);
  }

  /** After a non-empty batch the cache is the last event's message, which is also the last one posted. */
  lemma LastMessageIsCache(cache: string, events: seq<RootUpdated>)
    requires events != []
    ensures LatestCache(cache, events) == ParseRewardsData(events[|events| - 1])
    ensures Messages(events)[|events| - 1] == LatestCache(cache, events)
  {
  }

  /** How a tick ends: every event handled, or stopped by the call that raised. */
  datatype Outcome = Completed | Raised(error: CallError)

  /** One tick of `update_rewards` in which `call` stands for the call on each event: each
      message becomes the cache and is then posted; the first call that raises ends the tick (and
      the loop task), leaving the cache and the posted messages as they were at that point. */
  function Tick(call: RootUpdated -> Result<string, CallError>, cache: string, outbox: seq<string>, events: seq<RootUpdated>)
    : (r: (string, seq<string>, Outcome))
    ensures |outbox| <= |r.1| && r.1[..|outbox|] == outbox
    decreases |events|
  {
    if events == [] then (cache, outbox, Completed)
    else match call(events[0])
      case Err(e) => (cache, outbox, Raised(e))
      case Ok(msg) => Tick(call, msg, outbox + [msg], events[1..])
  }

  /** As written, a tick with any new event raises on the first one: the cache stays, nothing
      is posted. */
  lemma AsWrittenTickChangesNothing(cache: string, outbox: seq<string>, events: seq<RootUpdated>)
    requires events != []
    ensures Tick(CallAsWritten, cache, outbox, events) == (cache, outbox, Raised(UnsupportedHexType))
  {
  }

  /** A tick over a non-empty batch whose first call returns `msg` goes on from `msg`, with
      `msg` posted. */
  lemma TickStep(call: RootUpdated -> Result<string, CallError>, cache: string, outbox: seq<string>, events: seq<RootUpdated>, msg: string)
    requires events != [] && call(events[0]) == Ok(msg)
    ensures Tick(call, cache, outbox, events) == Tick(call, msg, outbox + [msg], events[1..])
  {
  }

  /** Mapping over a non-empty sequence is mapping its first element, then the rest. */
  lemma MapSeqCons<A, B>(f: A -> B, xs: seq<A>)
    requires xs != []
    ensures MapSeq(f, xs) == [f(xs[0])] + MapSeq(f, xs[1..])
  {
    assert xs == [xs[0]] + xs[1..];
    MapSeqConcat(f, [xs[0]], xs[1..]);
    assert MapSeq(f, [xs[0]]) == [f(xs[0])];
  }

  /** A tick whose every call returns `render` of its event posts one rendering per event, in
      log order, and leaves the last one cached. */
  lemma {:induction false} TickRendersAll(call: RootUpdated -> Result<string, CallError>, render: RootUpdated -> string,
                                          cache: string, outbox: seq<string>, events: seq<RootUpdated>)
    requires forall ev {:trigger call(ev)} :: call(ev) == Ok(render(ev))
    ensures Tick(call, cache, outbox, events) ==
      (if events == [] then cache else render(events[|events| - 1]), outbox + MapSeq(render, events), Completed)
    decreases |events|
  {
    if events == [] {
      assert outbox + MapSeq(render, events) == outbox;
    } else {
      var msg := render(events[0]);
      TickStep(call, cache, outbox, events, msg);
      TickRendersAll(call, render, msg, outbox + [msg], events[1..]);
      MapSeqCons(render, events);
      var rest := events[1..];
      assert render(events[|events| - 1]) == if rest == [] then msg else render(rest[|rest| - 1]);
      assert outbox + [msg] + MapSeq(render, events[1..]) == outbox + MapSeq(render, events);
    }
  }

  /** With the event's values spread, a tick posts one message per event in log order and
      leaves the last one cached, as `Messages` and `LatestCache` describe. */
  lemma IntendedTick(cache: string, outbox: seq<string>, events: seq<RootUpdated>)
    ensures Tick(CallIntended, cache, outbox, events) == (LatestCache(cache, events), outbox + Messages(events), Completed)
  {
    forall ev: RootUpdated
      ensures CallIntended(ev) == Ok(ParseRewardsData(ev))
    {
      SpreadValuesRender(ev);
    }
    TickRendersAll(CallIntended, ParseRewardsData, cache, outbox, events);
  }

  /** The bot's one piece of state: the cached message and what it has posted. */
  class RewardsBot {
    /** The text the bot currently reports (`current_rewards_data`). */
    var cache: string
    /** Every message posted to the update channel, oldest first. */
    var outbox: seq<string>

    /** Start-up: the cache holds the current cycle and Merkle data read from the contract; nothing is posted. */
    constructor (cycle: int, data: MerkleData)
      ensures cache == ParseRewardsData(WithCycle(cycle, data))
      ensures outbox == []
    {
      cache := ParseRewardsData(WithCycle(cycle, data));
      outbox := [];
    }

    /** One tick of `update_rewards` as it is meant to run: the tick loop with each event's values
        passed to `_parse_rewards_data` (the code as it stands is `UpdateRewardsAsWritten`). Each
        event, in log order, replaces the cache with its message and that message is posted. */
    method UpdateRewards(events: seq<RootUpdated>)
      modifies this
      ensures outbox == old(outbox) + Messages(events)
      ensures cache == LatestCache(old(cache), events)
      ensures events == [] ==> cache == old(cache) && outbox == old(outbox)
      ensures events != [] ==> cache == outbox[|outbox| - 1]
    {
      IntendedTick(cache, outbox, events);
      if events != [] {
        LastMessageIsCache(cache, events);
      }
      var outcome := RunTick(CallIntended, events);
    }

    /** One tick of `update_rewards`, with `call` standing for the call on each event. */
    method RunTick(call: RootUpdated -> Result<string, CallError>, events: seq<RootUpdated>) returns (outcome: Outcome)
      modifies this
      ensures (cache, outbox, outcome) == Tick(call, old(cache), old(outbox), events)
    {
      var i := 0;
      while i < |events|
        invariant 0 <= i <= |events|
        invariant Tick(call, cache, outbox, events[i..]) == Tick(call, old(cache), old(outbox), events)
      {
        var r := call(events[i]);
        assert events[i..][0] == events[i] && events[i..][1..] == events[i + 1..];
        if r.Err? {
          return Raised(r.error);
        }
        cache := r.value;
        outbox := outbox + [cache];
        i := i + 1;
      }
      return Completed;
    }

    /** `update_rewards` exactly as written: `*event["args"]` spreads the event's argument
        mapping, which passes its keys. */
    method UpdateRewardsAsWritten(events: seq<RootUpdated>) returns (outcome: Outcome)
      modifies this
      ensures (cache, outbox, outcome) == Tick(CallAsWritten, old(cache), old(outbox), events)
    {
      outcome := RunTick(CallAsWritten, events);
    }

    /** The `/rewards` command: reply with the cached text, leaving the bot unchanged. */
    method Rewards() returns (reply: string)
      ensures reply == cache
    {
      reply := cache;
    }
  }

  /** A new cycle is announced, with the intended tick: starting from the contract's current
      data, one tick with one new event posts exactly that event's message, and `/rewards` then
      echoes it. */
  method NewCycleScenario(cycle: int, data: MerkleData, ev: RootUpdated) returns (posted: seq<string>, reply: string)
    ensures posted == [ParseRewardsData(ev)]
    ensures reply == ParseRewardsData(ev)
  {
    var bot := new RewardsBot(cycle, data);
    bot.UpdateRewards([ev]);
    posted := bot.outbox;
    reply := bot.Rewards();
  }

  /** The same new cycle as the code runs it: the tick raises on the event, nothing is posted,
      and `/rewards` still echoes the start-up message. */
  method NewCycleScenarioAsWritten(cycle: int, data: MerkleData, ev: RootUpdated)
    returns (posted: seq<string>, reply: string, outcome: Outcome)
    ensures outcome == Raised(UnsupportedHexType)
    ensures posted == []
    ensures reply == ParseRewardsData(WithCycle(cycle, data))
  {
    var bot := new RewardsBot(cycle, data);
    AsWrittenTickChangesNothing(bot.cache, bot.outbox, [ev]);
    outcome := bot.UpdateRewardsAsWritten([ev]);
    posted := bot.outbox;
    reply := bot.Rewards();
  }
}
