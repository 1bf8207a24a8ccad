/** The host-owned Responses state machine (relay/plugin_protocol.go): it maps what a plugin reports on
    each tick onto wire events, numbers them, and ends the stream once. Metadata and usage fields are
    not modelled; a text is the sequence of its bytes. */
module ResponsesMachine {
  import opened Wrappers

  datatype Kind =
    | Created | InProgress
    | ItemAdded | PartAdded | TextDelta | TextDone | PartDone | ItemDone
    | Completed | Failed | Incomplete

  predicate IsTerminal(k: Kind) {
    k.Completed? || k.Failed? || k.Incomplete?
  }

  /** One event on the wire. `index` and `text` belong to output events; `snapshot` holds the outputs
      of the response that a created, completed, failed or incomplete event carries. */
  datatype WireEvent = WireEvent(kind: Kind, sequence: nat, index: nat, text: string, snapshot: seq<string>)

  datatype Semantic =
    | Progress(inRange: bool, messageLength: nat)
    | Output(decodable: bool, text: string)
    | Error(hasMessage: bool)
    | Unsupported

  datatype TaskStatus = Success | Failure | Pending

  datatype Limits = Limits(maxOutputs: nat, maxTotalBytes: nat, maxEventBytes: nat, maxMetadataBytes: nat)

  // ---------------------------------------------------------------- streams

  /** The texts of the finished output items, in order. */
  ghost function Texts(log: seq<WireEvent>): seq<string> {
    if log == [] then []
    else Texts(log[..|log| - 1]) + (if log[|log| - 1].kind.ItemDone? then [log[|log| - 1].text] else [])
  }

  /** Sequence numbers count up from zero, the stream opens with its only created event, and nothing
      follows a terminal event. */
  ghost predicate Numbered(log: seq<WireEvent>) {
    && (forall i | 0 <= i < |log| :: log[i].sequence == i && (log[i].kind.Created? <==> i == 0))
    && (forall i | 0 <= i < |log| - 1 :: !IsTerminal(log[i].kind))
  }

  /** The six events of one finished output item, in order, with the position of the item and one text. */
  ghost predicate IsItem(es: seq<WireEvent>, index: nat) {
    && |es| == 6
    && es[0].kind.ItemAdded? && es[1].kind.PartAdded? && es[2].kind.TextDelta?
    && es[3].kind.TextDone? && es[4].kind.PartDone? && es[5].kind.ItemDone?
    && (forall k | 0 <= k < 6 :: es[k].index == index)
    && es[2].text == es[3].text == es[4].text == es[5].text
  }

  /** Every finished item was announced, delivered and closed by the five events before it. */
  ghost predicate Grouped(log: seq<WireEvent>) {
    forall i | 0 <= i < |log| && log[i].kind.ItemDone? :: i >= 5 && IsItem(log[i - 5..i + 1], |Texts(log[..i])|)
  }

  /** A numbered stream of whole items whose terminal event carries exactly the outputs sent before it. */
  ghost predicate WellFormed(log: seq<WireEvent>) {
    Numbered(log) && Grouped(log) && (Ended(log) ==> log[|log| - 1].snapshot == Texts(log))
  }

  lemma GroupedAt(log: seq<WireEvent>, es: seq<WireEvent>, i: nat)
    requires Grouped(log) && i < |log| && log[i].kind.ItemDone?
    ensures var more := log + es; i >= 5 && IsItem(more[i - 5..i + 1], |Texts(more[..i])|)
  {
    var more := log + es;
    assert more[..i] == log[..i] && (i >= 5 ==> more[i - 5..i + 1] == log[i - 5..i + 1]);
  }

  lemma GroupedAppend(log: seq<WireEvent>, es: seq<WireEvent>)
    requires Grouped(log) && forall k | 0 <= k < |es| :: !es[k].kind.ItemDone?
    ensures Grouped(log + es)
  {
    var more := log + es;
    forall i | 0 <= i < |more| && more[i].kind.ItemDone?
      ensures i >= 5 && IsItem(more[i - 5..i + 1], |Texts(more[..i])|)
    {
      GroupedAt(log, es, i);
    }
  }

  lemma GroupedItem(log: seq<WireEvent>, es: seq<WireEvent>)
    requires Grouped(log) && IsItem(es, |Texts(log)|)
    ensures Grouped(log + es)
  {
    var more := log + es;
    forall i | 0 <= i < |more| && more[i].kind.ItemDone?
      ensures i >= 5 && IsItem(more[i - 5..i + 1], |Texts(more[..i])|)
    {
      if i < |log| {
        GroupedAt(log, es, i);
      } else {
        ItemEnds(log, es, i);
      }
    }
  }

  lemma ItemEnds(log: seq<WireEvent>, es: seq<WireEvent>, i: nat)
    requires IsItem(es, |Texts(log)|) && |log| <= i < |log| + 6 && (log + es)[i].kind.ItemDone?
    ensures i >= 5 && IsItem((log + es)[i - 5..i + 1], |Texts((log + es)[..i])|)
  {
    var more := log + es;
    assert more[i] == es[i - |log|] && i == |log| + 5;
    assert more[i - 5..i + 1] == es && more[..i] == log + es[..5];
    TextsPrefix(log, es[..5]);
    NoTexts(es[..5]);
  }

  lemma {:induction false} NoTexts(es: seq<WireEvent>)
    requires forall k | 0 <= k < |es| :: !es[k].kind.ItemDone?
    ensures Texts(es) == []
  {
    if es != [] {
      NoTexts(es[..|es| - 1]);
    }
  }

  ghost predicate Ended(log: seq<WireEvent>) {
    log != [] && IsTerminal(log[|log| - 1].kind)
  }

  lemma {:induction false} TextsPrefix(a: seq<WireEvent>, b: seq<WireEvent>)
    ensures Texts(a + b) == Texts(a) + Texts(b)
  {
    if b == [] {
      assert a + b == a;
    } else {
      var front, last := b[..|b| - 1], b[|b| - 1];
      var tail := if last.kind.ItemDone? then [last.text] else [];
      calc {
        Texts(a + b);
      == { assert a + b == (a + front) + [last]; TextsSnoc(a + front, last); }
        Texts(a + front) + tail;
      == { TextsPrefix(a, front); }
        Texts(a) + Texts(front) + tail;
      == { assert b == front + [last]; TextsSnoc(front, last); }
        Texts(a) + Texts(b);
      }
    }
  }

  lemma AppendNumbered(log: seq<WireEvent>, e: WireEvent)
    requires Numbered(log) && !Ended(log) && e.sequence == |log| && (e.kind.Created? <==> log == [])
    ensures Numbered(log + [e]) && (Ended(log + [e]) <==> IsTerminal(e.kind))
  {
  }

  lemma TextsSnoc(log: seq<WireEvent>, e: WireEvent)
    ensures Texts(log + [e]) == Texts(log) + if e.kind.ItemDone? then [e.text] else []
  {
    assert (log + [e])[..|log|] == log;
  }

  lemma AppendEvent(log: seq<WireEvent>, e: WireEvent)
    requires WellFormed(log) && !Ended(log) && e.sequence == |log| && (e.kind.Created? <==> log == [])
    requires !e.kind.ItemDone? && (IsTerminal(e.kind) ==> e.snapshot == Texts(log))
    ensures WellFormed(log + [e]) && (Ended(log + [e]) <==> IsTerminal(e.kind)) && Texts(log + [e]) == Texts(log)
  {
    AppendNumbered(log, e);
    TextsSnoc(log, e);
    GroupedAppend(log, [e]);
  }

  /** The six events of one output item. */
  function OutputEvents(n: nat, index: nat, text: string): seq<WireEvent> {
    [WireEvent(ItemAdded, n, index, [], []), WireEvent(PartAdded, n + 1, index, [], []),
     WireEvent(TextDelta, n + 2, index, text, []), WireEvent(TextDone, n + 3, index, text, []),
     WireEvent(PartDone, n + 4, index, text, []), WireEvent(ItemDone, n + 5, index, text, [])]
  }

  lemma AppendOutputEvents(log: seq<WireEvent>, index: nat, text: string)
    requires WellFormed(log) && !Ended(log) && log != [] && index == |Texts(log)|
    ensures var more := log + OutputEvents(|log|, index, text);
            WellFormed(more) && !Ended(more) && Texts(more) == Texts(log) + [text]
  {
    var es := OutputEvents(|log|, index, text);
    OutputTexts(|log|, index, text);
    OutputPlain(|log|, index, text);
    AppendItem(log, es, text);
  }

  lemma AppendItem(log: seq<WireEvent>, es: seq<WireEvent>, text: string)
    requires WellFormed(log) && !Ended(log) && log != [] && IsItem(es, |Texts(log)|) && Texts(es) == [text]
    requires forall k | 0 <= k < |es| :: es[k].sequence == |log| + k && !es[k].kind.Created? && !IsTerminal(es[k].kind)
    ensures WellFormed(log + es) && !Ended(log + es) && Texts(log + es) == Texts(log) + [text]
  {
    TextsPrefix(log, es);
    AppendPlain(log, es);
    GroupedItem(log, es);
  }

  lemma OutputPlain(n: nat, index: nat, text: string)
    ensures var es := OutputEvents(n, index, text);
            IsItem(es, index) && forall k | 0 <= k < 6 :: es[k].sequence == n + k && !es[k].kind.Created? && !IsTerminal(es[k].kind)
  {
  }

  lemma AppendPlain(log: seq<WireEvent>, es: seq<WireEvent>)
    requires Numbered(log) && !Ended(log) && log != [] && es != []
    requires forall k | 0 <= k < |es| :: es[k].sequence == |log| + k && !es[k].kind.Created? && !IsTerminal(es[k].kind)
    ensures Numbered(log + es) && !Ended(log + es)
  {
    var more := log + es;
    assert !IsTerminal(log[|log| - 1].kind);
    assert more[|more| - 1] == es[|es| - 1];
    forall i | 0 <= i < |more|
      ensures more[i].sequence == i && (more[i].kind.Created? <==> i == 0) && !IsTerminal(more[i].kind)
    {
      if i >= |log| {
        assert more[i] == es[i - |log|];
      }
    }
  }

  lemma OutputTexts(n: nat, index: nat, text: string)
    ensures Texts(OutputEvents(n, index, text)) == [text]
  {
    var es := OutputEvents(n, index, text);
    NoTexts(es[..5]);
    TextsSnoc(es[..5], es[5]);
    assert es == es[..5] + [es[5]];
  }

  // ---------------------------------------------------------------- a tick

  predicate EventOk(e: Semantic, limits: Limits) {
    match e
    case Progress(inRange, messageLength) => inRange && messageLength <= limits.maxMetadataBytes
    case Output(decodable, text) => decodable && |text| <= limits.maxEventBytes
    case Error(hasMessage) => hasMessage
    case Unsupported => false
  }

  /** The texts a batch would add, ignoring that an error ends it early. */
  function AllTexts(events: seq<Semantic>): seq<string> {
    if events == [] then []
    else AllTexts(events[..|events| - 1])
         + (if events[|events| - 1].Output? then [events[|events| - 1].text] else [])
  }

  function Bytes(texts: seq<string>): nat {
    if texts == [] then 0 else Bytes(texts[..|texts| - 1]) + |texts[|texts| - 1]|
  }

  lemma {:induction false} BytesAppend(a: seq<string>, b: seq<string>)
    ensures Bytes(a + b) == Bytes(a) + Bytes(b)
  {
    if b == [] {
      assert a + b == a;
    } else {
      BytesAppend(a, b[..|b| - 1]);
      assert (a + b)[..|a + b| - 1] == a + b[..|b| - 1];
    }
  }

  lemma BytesOne(text: string)
    ensures Bytes([text]) == |text|
  {
    assert [text][..0] == [];
    assert Bytes([text][..0]) == 0;
  }

  /** The batch up to its first error event. */
  function BeforeError(events: seq<Semantic>): seq<Semantic> {
    if events == [] || events[0].Error? then [] else [events[0]] + BeforeError(events[1..])
  }

  predicate HasError(events: seq<Semantic>) {
    exists i | 0 <= i < |events| :: events[i].Error?
  }

  ghost predicate BatchFits(outputs: seq<string>, events: seq<Semantic>, limits: Limits) {
    Fits(|outputs|, Bytes(outputs), events, limits)
  }

  ghost predicate Fits(outputCount: nat, outputBytes: nat, events: seq<Semantic>, limits: Limits) {
    && (forall i | 0 <= i < |events| :: EventOk(events[i], limits))
    && outputCount + |AllTexts(events)| <= limits.maxOutputs
    && outputBytes + Bytes(AllTexts(events)) <= limits.maxTotalBytes
  }

  lemma AllTextsStep(events: seq<Semantic>, i: nat)
    requires i < |events|
    ensures AllTexts(events[..i + 1]) == if events[i].Output? then AllTexts(events[..i]) + [events[i].text] else AllTexts(events[..i])
  {
    assert events[..i + 1][..i] == events[..i];
  }

  /** The validation loop of ApplyTick. */
  method CheckBatch(outputCount: nat, outputBytes: nat, events: seq<Semantic>, limits: Limits) returns (ok: bool)
    ensures ok <==> Fits(outputCount, outputBytes, events, limits)
    ensures ok ==> forall i | 0 <= i < |events| ::
              && !events[i].Unsupported?
              && (events[i].Error? ==> events[i].hasMessage)
              && (events[i].Output? ==> events[i].decodable && |events[i].text| <= limits.maxEventBytes)
              && (events[i].Progress? ==> events[i].inRange && events[i].messageLength <= limits.maxMetadataBytes)
    ensures !ok ==>
              || (exists i | 0 <= i < |events| ::
                    || events[i].Unsupported?
                    || (events[i].Error? && !events[i].hasMessage)
                    || (events[i].Output? && (!events[i].decodable || |events[i].text| > limits.maxEventBytes))
                    || (events[i].Progress? && (!events[i].inRange || events[i].messageLength > limits.maxMetadataBytes)))
              || outputCount + |AllTexts(events)| > limits.maxOutputs
              || outputBytes + Bytes(AllTexts(events)) > limits.maxTotalBytes
  {
    var additionalBytes, additionalOutputs := 0, 0;
    for i := 0 to |events|
      invariant forall k | 0 <= k < i :: EventOk(events[k], limits)
      invariant additionalOutputs == |AllTexts(events[..i])|
      invariant additionalBytes == Bytes(AllTexts(events[..i]))
    {
      AllTextsStep(events, i);
      if !EventOk(events[i], limits) {
        return false;
      }
      if events[i].Output? {
        BytesAppend(AllTexts(events[..i]), [events[i].text]);
        BytesOne(events[i].text);
        additionalBytes := additionalBytes + |events[i].text|;
        additionalOutputs := additionalOutputs + 1;
      }
    }
    assert events[..|events|] == events;
    return outputCount + additionalOutputs <= limits.maxOutputs && outputBytes + additionalBytes <= limits.maxTotalBytes;
  }

  lemma {:induction false} AllTextsMonotone(events: seq<Semantic>, i: nat)
    requires i <= |events|
    ensures |AllTexts(events[..i])| <= |AllTexts(events)|
    ensures Bytes(AllTexts(events[..i])) <= Bytes(AllTexts(events))
    decreases |events| - i
  {
    if i == |events| {
      assert events[..i] == events;
    } else {
      AllTextsStep(events, i);
      if events[i].Output? {
        BytesAppend(AllTexts(events[..i]), [events[i].text]);
        BytesOne(events[i].text);
      }
      AllTextsMonotone(events, i + 1);
    }
  }

  /** A batch that fits leaves room for each of its outputs in turn. */
  lemma RoomFor(before: seq<string>, events: seq<Semantic>, i: nat, limits: Limits)
    requires i < |events| && events[i].Output? && BatchFits(before, events, limits)
    ensures var sent := before + AllTexts(events[..i]);
            |sent| < limits.maxOutputs && Bytes(sent) + |events[i].text| <= limits.maxTotalBytes
  {
    AllTextsStep(events, i);
    AllTextsMonotone(events, i + 1);
    BytesAppend(before, AllTexts(events[..i]));
    BytesAppend(AllTexts(events[..i]), [events[i].text]);
    BytesOne(events[i].text);
  }

  lemma OutputsStep(before: seq<string>, events: seq<Semantic>, i: nat, limits: Limits)
    requires i < |events| && BatchFits(before, events, limits)
    ensures var sent, e := before + AllTexts(events[..i]), events[i];
            && before + AllTexts(events[..i + 1]) == (if e.Output? then sent + [e.text] else sent)
            && (e.Output? ==> |sent| < limits.maxOutputs && Bytes(sent) + |e.text| <= limits.maxTotalBytes)
  {
    AllTextsStep(events, i);
    if events[i].Output? {
      RoomFor(before, events, i, limits);
    }
  }

  predicate NoError(events: seq<Semantic>) {
    forall i | 0 <= i < |events| :: !events[i].Error?
  }

  lemma NoErrorStep(events: seq<Semantic>, i: nat)
    requires i < |events| && NoError(events[..i]) && !events[i].Error?
    ensures NoError(events[..i + 1])
  {
    assert events[..i + 1] == events[..i] + [events[i]];
  }

  /** The first `i` events of a batch had no error, and their texts have been added. */
  ghost predicate Sent(before: seq<string>, events: seq<Semantic>, i: nat, outputs: seq<string>)
    requires i <= |events|
  {
    outputs == before + AllTexts(events[..i]) && NoError(events[..i])
  }

  lemma AllSent(before: seq<string>, events: seq<Semantic>, outputs: seq<string>)
    requires Sent(before, events, |events|, outputs)
    ensures !HasError(events) && outputs == before + AllTexts(BeforeError(events))
  {
    assert events[..|events|] == events;
    BeforeErrorAll(events);
  }

  lemma {:induction false} BeforeErrorIs(a: seq<Semantic>, e: Semantic, b: seq<Semantic>)
    requires NoError(a) && e.Error?
    ensures BeforeError(a + [e] + b) == a
  {
    var all := a + [e] + b;
    if a != [] {
      BeforeErrorIs(a[1..], e, b);
      assert all[1..] == a[1..] + [e] + b;
    }
  }

  lemma {:induction false} BeforeErrorAll(events: seq<Semantic>)
    requires NoError(events)
    ensures BeforeError(events) == events && !HasError(events)
  {
    if events != [] {
      BeforeErrorAll(events[1..]);
    }
  }

  /** The first error of a batch: nothing from it on is sent. */
  lemma ErrorAt(events: seq<Semantic>, i: nat)
    requires i < |events| && NoError(events[..i]) && events[i].Error?
    ensures HasError(events) && BeforeError(events) == events[..i]
    ensures AllTexts(events[..i + 1]) == AllTexts(BeforeError(events))
  {
    BeforeErrorAt(events, i);
    AllTextsStep(events, i);
  }

  lemma BeforeErrorAt(events: seq<Semantic>, i: nat)
    requires i < |events| && NoError(events[..i]) && events[i].Error?
    ensures BeforeError(events) == events[..i]
  {
    var a, e, b := events[..i], events[i], events[i + 1..];
    BeforeErrorIs(a, e, b);
    assert events == a + [e] + b;
  }

  class Machine {
    const limits: Limits
    var nextSequence: nat
    var started: bool
    var terminal: bool
    var outputs: seq<string>
    var totalOutputBytes: nat
    ghost var log: seq<WireEvent>

    /** The fields describe the stream emitted so far, which is well formed and within the limits. */
    ghost predicate Valid()
      reads this
    {
      && WellFormed(log)
      && nextSequence == |log|
      && (started <==> log != [])
      && (terminal <==> Ended(log))
      && Texts(log) == outputs
      && totalOutputBytes == Bytes(outputs)
      && |outputs| <= limits.maxOutputs && totalOutputBytes <= limits.maxTotalBytes
    }

    constructor (limits: Limits)
      ensures Valid() && log == [] && this.limits == limits
    {
      this.limits, nextSequence, started, terminal, outputs, totalOutputBytes := limits, 0, false, false, [], 0;
      log := [];
    }

    /** responseEvent, progressEvent and fail: number an event and record it. */
    method Emit(kind: Kind) returns (e: WireEvent)
      requires Valid() && !terminal && (kind.Created? <==> !started)
      requires kind.Created? || kind.InProgress? || IsTerminal(kind)
      modifies this
      ensures Valid() && log == old(log) + [e] && e.kind == kind && started
      ensures outputs == old(outputs) && (terminal <==> IsTerminal(kind))
    {
      e := WireEvent(kind, nextSequence, 0, [], if kind.InProgress? then [] else outputs);
      AppendEvent(log, e);
      nextSequence := nextSequence + 1;
      started := true;
      terminal := IsTerminal(kind);
      log := log + [e];
    }

    method AppendOutput(text: string) returns (events: seq<WireEvent>)
      requires Valid() && started && !terminal
      requires |outputs| < limits.maxOutputs && totalOutputBytes + |text| <= limits.maxTotalBytes
      modifies this
      ensures Valid() && started && !terminal
      ensures log == old(log) + events && outputs == old(outputs) + [text]
      ensures IsItem(events, |old(outputs)|) && events[5].text == text
      ensures totalOutputBytes == old(totalOutputBytes) + |text|
    {
      AppendOutputEvents(log, |outputs|, text);
      BytesAppend(outputs, [text]);
      BytesOne(text);
      events := OutputEvents(nextSequence, |outputs|, text);
      nextSequence := nextSequence + 6;
      outputs := outputs + [text];
      totalOutputBytes := totalOutputBytes + |text|;
      log := log + events;
    }

    /** CreatedEvent. */
    method CreatedEvent() returns (e: Option<WireEvent>)
      requires Valid()
      modifies this
      ensures Valid()
      ensures e.Some? <==> !old(started) && !old(terminal)
      ensures e.None? ==> log == old(log)
      ensures e.Some? ==> log == old(log) + [e.value] && e.value.kind.Created? && !terminal
      ensures outputs == old(outputs)
    {
      if started || terminal {
        return None;
      }
      var event := Emit(Created);
      return Some(event);
    }

    /** FailureEvent and TimeoutEvent: they end a stream that has begun and not ended. */
    method EndEvent(kind: Kind) returns (e: Option<WireEvent>)
      requires Valid() && (kind.Failed? || kind.Incomplete?)
      modifies this
      ensures Valid()
      ensures e.Some? <==> old(started) && !old(terminal)
      ensures e.None? ==> log == old(log)
      ensures e.Some? ==> log == old(log) + [e.value] && e.value.kind == kind && terminal
      ensures outputs == old(outputs)
    {
      if !started || terminal {
        return None;
      }
      var event := Emit(kind);
      return Some(event);
    }

    /** ApplyTick: a batch that does not fit changes nothing; otherwise its outputs up to the first
        error are appended, and the batch ends the stream exactly as the task status, an error event
        or the plugin's `done` demand. */
    method ApplyTick(events: seq<Semantic>, done: bool, status: TaskStatus) returns (r: Option<seq<WireEvent>>)
      requires Valid()
      modifies this
      ensures Valid()
      ensures r.Some? <==> old(started) && !old(terminal) && (status.Failure? || BatchFits(old(outputs), events, limits))
      ensures r.None? ==> log == old(log) && outputs == old(outputs)
      ensures r.Some? ==> log == old(log) + r.value
      ensures r.Some? ==> outputs == old(outputs) + if status.Failure? then [] else AllTexts(BeforeError(events))
      ensures r.Some? ==>
                var error := HasError(events);
                && (terminal <==> !status.Pending? || error || done)
                && (terminal ==>
                      r.value != []
                      && r.value[|r.value| - 1].kind ==
                         if status.Failure? || error then Failed else if status.Success? then Completed else Incomplete)
    {
      if !started || terminal {
        return None;
      }
      if status.Failure? {
        var e := Emit(Failed);
        return Some([e]);
      }
      var ok := CheckBatch(|outputs|, totalOutputBytes, events, limits);
      if !ok {
        return None;
      }
      var wire, failed := EmitBatch(events);
      if failed {
        return Some(wire);
      }
      var more := Conclude(done, status);
      return Some(wire + more);
    }

    /** The end of a batch without an error. */
    method Conclude(done: bool, status: TaskStatus) returns (wire: seq<WireEvent>)
      requires Valid() && started && !terminal && !status.Failure?
      modifies this
      ensures Valid() && started && log == old(log) + wire && outputs == old(outputs)
      ensures terminal <==> wire != []
      ensures terminal <==> status.Success? || done
      ensures terminal ==> wire[|wire| - 1].kind == if status.Success? then Completed else Incomplete
    {
      wire := [];
      if status.Success? {
        var e := Emit(Completed);
        wire := [e];
      } else if done {
        var e := Emit(Incomplete);
        wire := [e];
      }
    }

    /** The emission loop of ApplyTick, which an error event ends. */
    method EmitBatch(events: seq<Semantic>) returns (wire: seq<WireEvent>, failed: bool)
      requires Valid() && started && !terminal && BatchFits(outputs, events, limits)
      modifies this
      ensures Valid() && started && log == old(log) + wire
      ensures outputs == old(outputs) + AllTexts(BeforeError(events))
      ensures failed == terminal == HasError(events)
      ensures failed ==> wire != [] && wire[|wire| - 1].kind.Failed?
    {
      ghost var before := outputs;
      wire := [];
      for i := 0 to |events|
        invariant Valid() && started && !terminal && log == old(log) + wire
        invariant Sent(before, events, i, outputs)
      {
        var es;
        es, failed := EmitAt(events, i, before);
        wire := wire + es;
        if failed {
          return wire, true;
        }
      }
      AllSent(before, events, outputs);
      return wire, false;
    }

    /** The event at one position of a batch. */
    method EmitAt(events: seq<Semantic>, i: nat, ghost before: seq<string>) returns (wire: seq<WireEvent>, failed: bool)
      requires Valid() && started && !terminal && i < |events| && BatchFits(before, events, limits)
      requires Sent(before, events, i, outputs)
      modifies this
      ensures Valid() && started && log == old(log) + wire && failed == terminal
      ensures failed ==> wire != [] && wire[|wire| - 1].kind.Failed?
      ensures failed ==> HasError(events) && outputs == before + AllTexts(BeforeError(events))
      ensures !failed ==> Sent(before, events, i + 1, outputs)
    {
      OutputsStep(before, events, i, limits);
      if events[i].Error? {
        ErrorAt(events, i);
      } else {
        NoErrorStep(events, i);
      }
      wire, failed := EmitOne(events[i]);
    }

    /** One round of the emission loop. */
    method EmitOne(e: Semantic) returns (wire: seq<WireEvent>, failed: bool)
      requires Valid() && started && !terminal
      requires e.Output? ==> |outputs| < limits.maxOutputs && totalOutputBytes + |e.text| <= limits.maxTotalBytes
      modifies this
      ensures Valid() && started && log == old(log) + wire
      ensures failed == terminal == e.Error?
      ensures failed ==> |wire| == 1 && wire[0].kind.Failed?
      ensures e.Output? ==> IsItem(wire, |old(outputs)|) && wire[5].text == e.text
      ensures e.Progress? && old(outputs) == [] ==> |wire| == 1 && wire[0].kind.InProgress?
      ensures (e.Progress? && old(outputs) != []) || e.Unsupported? ==> wire == []
      ensures outputs == if e.Output? then old(outputs) + [e.text] else old(outputs)
    {
      wire := [];
      if e.Error? {
        var event := Emit(Failed);
        return [event], true;
      } else if e.Progress? && outputs == [] {
        var event := Emit(InProgress);
        wire := [event];
      } else if e.Output? {
        wire := AppendOutput(e.text);
      }
      return wire, false;
    }
  }
}
