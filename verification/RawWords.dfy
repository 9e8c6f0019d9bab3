/** The machine's steps on decoded event words, carried out on the packed 32-bit words. */
module RawWords {
  import opened EventWord
  import opened FifoMachine

  datatype Raw = Raw(bits: bv32)

  /** The packed words stand for the decoded ones. */
  ghost predicate Decodes(raw: map<Port, Raw>, words: map<Port, Word>) {
    raw.Keys == words.Keys && forall p :: p in words ==> Decode(raw[p].bits) == words[p]
  }

  /** The flags that any agent may change, as bits of a word. */
  function FlagBits(pending: bool, masked: bool, busy: bool): bv32 {
    (if pending then 0x8000_0000 else 0) | (if masked then 0x4000_0000 else 0) | (if busy then 0x1000_0000 else 0)
  }

  lemma FlagBitsDecode(w: bv32, pending: bool, masked: bool, busy: bool)
    ensures Decode(SetFlags(w, FlagBits(pending, masked, busy)))
            == Decode(w).(pending := pending, masked := masked, busy := busy)
  {
    var f := FlagBits(pending, masked, busy);
    SetFlagsBits(w, f);
    assert f & 0x8000_0000 != 0 <==> pending;
    assert f & 0x4000_0000 != 0 <==> masked;
    assert f & 0x1000_0000 != 0 <==> busy;
  }

  /** What a step does to the packed words: the hypervisor raises an event and links it behind the
      queue's last word; flags change; the guest unlinks a port. */
  function RawStep(s: State, raw: map<Port, Raw>, step: Step): map<Port, Raw>
    requires Enabled(s, step) && raw.Keys == s.words.Keys
  {
    match step
    case Append(p, q) =>
      var tail := ForgetTail(s.queues, p)[q].tail;
      var raised := raw[p := Raw(Raise(raw[p].bits))];
      if tail != NO_PORT && tail in raw && Decode(raw[tail].bits).linked
      then raised[tail := Raw(SetLink(raised[tail].bits, LinkBits(p)))]
      else raised
    case ChangeFlags(p, pending, masked, busy) =>
      raw[p := Raw(SetFlags(raw[p].bits, FlagBits(pending, masked, busy)))]
    case Unlink(v) => raw[s.pollers[v].port := Raw(EventWord.Unlink(raw[s.pollers[v].port].bits))]
    case _ => raw
  }

  lemma RawAppend(s: State, raw: map<Port, Raw>, p: Port, q: Queue)
    requires Enabled(s, Append(p, q)) && Decodes(raw, s.words)
    ensures Decodes(RawStep(s, raw, Append(p, q)), ApplyAppend(s, p, q).words)
  {
    hide Decode, Raise, SetLink, LinkBits, Decodes;
    DecodesAt(raw, s.words, p);
    var tail := ForgetTail(s.queues, p)[q].tail;
    var raised := raw[p := Raw(Raise(raw[p].bits))];
    RaiseDecodes(raw[p].bits);
    DecodesSet(raw, s.words, p, raised[p].bits, s.words[p].(pending := true, linked := true));
    if tail in raw {
      var words := s.words[p := s.words[p].(pending := true, linked := true)];
      DecodesAt(raw, s.words, tail);
      DecodesAt(raised, words, tail);
      SetLinkDecodes(raised[tail].bits, p);
      DecodesSet(raised, words, tail, SetLink(raised[tail].bits, LinkBits(p)), words[tail].(busy := false, link := p));
    }
  }

  lemma DecodesAt(raw: map<Port, Raw>, words: map<Port, Word>, p: Port)
    requires Decodes(raw, words)
    ensures raw.Keys == words.Keys && (p in words ==> Decode(raw[p].bits) == words[p])
  {
  }

  lemma DecodesSet(raw: map<Port, Raw>, words: map<Port, Word>, p: Port, bits: bv32, word: Word)
    requires Decodes(raw, words) && Decode(bits) == word && p in words
    ensures Decodes(raw[p := Raw(bits)], words[p := word])
  {
    hide Decode;
  }

  /** Every step on the packed words decodes to the machine's step. */
  lemma RawStepDecodes(s: State, raw: map<Port, Raw>, step: Step)
    requires Enabled(s, step) && Decodes(raw, s.words)
    ensures Decodes(RawStep(s, raw, step), Apply(s, step).words)
  {
    hide Decode, Raise, SetLink, LinkBits, SetFlags, EventWord.Unlink, FlagBits, ApplyAppend;
    match step
    case Append(p, q) => RawAppend(s, raw, p, q);
    case ChangeFlags(p, pending, masked, busy) => FlagBitsDecode(raw[p].bits, pending, masked, busy);
    case Unlink(v) => UnlinkDecodes(raw[s.pollers[v].port].bits);
    case _ =>
  }

  // ---- Whole runs ----

  lemma RawKeys(s: State, raw: map<Port, Raw>, step: Step)
    requires Enabled(s, step) && raw.Keys == s.words.Keys
    ensures RawStep(s, raw, step).Keys == Apply(s, step).words.Keys
  {
  }

  /** The packed words after a run. */
  ghost function RawRun(s: State, raw: map<Port, Raw>, steps: seq<Step>, t: State): map<Port, Raw>
    requires Run(s, steps, t) && raw.Keys == s.words.Keys
    decreases |steps|
  {
    if steps == [] then raw
    else
      RawKeys(s, raw, steps[0]);
      RawRun(Apply(s, steps[0]), RawStep(s, raw, steps[0]), steps[1..], t)
  }

  lemma {:induction false} RawRunDecodes(s: State, raw: map<Port, Raw>, steps: seq<Step>, t: State)
    requires Run(s, steps, t) && Decodes(raw, s.words)
    ensures Decodes(RawRun(s, raw, steps, t), t.words)
    decreases |steps|
  {
    hide Apply, Enabled, RawStep, Decode;
    if steps != [] {
      RawStepDecodes(s, raw, steps[0]);
      RawKeys(s, raw, steps[0]);
      RawRunDecodes(Apply(s, steps[0]), RawStep(s, raw, steps[0]), steps[1..], t);
    }
  }

  /** Following the link fields of packed words from `start` visits exactly `c`, each with its
      LINKED bit set, and ends at link 0. */
  ghost predicate RawFollows(raw: map<Port, Raw>, start: Port, c: seq<Port>)
    decreases |c|
  {
    if c == [] then start == NO_PORT
    else
      && start == c[0] && start != NO_PORT && start in raw
      && raw[start].bits & 0x2000_0000 != 0
      && RawFollows(raw, LinkOf(raw[start].bits), c[1..])
  }

  lemma {:induction false} FollowsRaw(raw: map<Port, Raw>, words: map<Port, Word>, start: Port, c: seq<Port>)
    requires Decodes(raw, words) && Follows(words, start, c)
    ensures RawFollows(raw, start, c)
    decreases |c|
  {
    if c != [] {
      assert Decode(raw[start].bits) == words[start];
      FollowsRaw(raw, words, words[start].link, c[1..]);
    }
  }

  /** Over every interleaving, what waits in a queue is chained through the packed words. */
  lemma RawChain(s: State, raw: map<Port, Raw>, steps: seq<Step>, t: State, q: Queue)
    requires Init(s) && Run(s, steps, t) && q in s.queues && Decodes(raw, s.words)
    ensures q in t.queues && q.vcpu in t.pollers && Unlinks(s, steps, t, q) <= Appends(steps, q)
    ensures var waiting := Appends(steps, q)[|Unlinks(s, steps, t, q)|..];
            waiting != [] ==> RawFollows(RawRun(s, raw, steps, t), Start(t, q), waiting)
  {
    hide Init, Run, RawRun, Unlinks, Decode;
    QueueIsFifo(s, steps, t, q);
    RawRunDecodes(s, raw, steps, t);
    var waiting := Appends(steps, q)[|Unlinks(s, steps, t, q)|..];
    if waiting != [] {
      FollowsRaw(RawRun(s, raw, steps, t), t.words, Start(t, q), waiting);
    }
  }
}
