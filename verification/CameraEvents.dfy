/** Which events an ONVIF PullMessages batch reports (lib/camera_parse), and
    what parseEvents does about them (src/camera.cpp). */
module CameraEvents {
  import opened Common
  import opened Text

  const CLOSE := "</wsnt:NotificationMessage>"

  // ---------- one topic's state ----------

  function StateName(text: string, topicPos: nat, blockEnd: nat): int
  {
    var p := IndexOf(text, "Name=\"State\"", topicPos);
    if 0 <= p < blockEnd then p
    else
      var p := IndexOf(text, "Name=\"state\"", topicPos);
      if 0 <= p < blockEnd then p else IndexOf(text, "Name=\"IsMotion\"", topicPos)
  }

  /** Index of the opening quote of the state's value, -1 if the block has none. */
  function ValueQuote(text: string, topicPos: nat, blockEnd: nat): (q: int)
    ensures q == -1 || (0 <= q < |text| && (text[q] == '"' || text[q] == '\''))
  {
    var p := StateName(text, topicPos, blockEnd);
    if !(0 <= p < blockEnd) then -1
    else
      var valuePos := IndexOf(text, "Value=", p);
      if !(0 <= valuePos < blockEnd) || valuePos + 6 >= |text| then -1
      else if text[valuePos + 6] == '"' || text[valuePos + 6] == '\'' then valuePos + 6
      else -1
  }

  /** Where the value stands; the search for the closing quote is not confined
      to the block. */
  function ValueSpan(text: string, topicPos: nat, blockEnd: nat): (span: Option<(nat, nat)>)
    ensures span.Some? ==> span.value.0 <= span.value.1 <= |text|
  {
    var q := ValueQuote(text, topicPos, blockEnd);
    if q < 0 then None
    else
      var end := IndexOf(text, [text[q]], q + 1);
      if end < 0 then None else Some((q + 1, end))
  }

  /** The first block at or after from that names the topic: the state it
      reports, and where the search goes on. */
  datatype Found = NoTopic | Found(raw: Option<string>, next: nat)

  function Spanned(text: string, span: Option<(nat, nat)>): Option<string>
    requires span.Some? ==> span.value.0 <= span.value.1 <= |text|
  {
    if span.Some? then Some(text[span.value.0..span.value.1]) else None
  }

  function Trimmed(raw: Option<string>): Option<string> { if raw.Some? then Some(Trim(raw.value)) else None }

  function BlockEnd(text: string, topicPos: nat): (e: nat)
    ensures e <= |text|
  {
    var close := IndexOf(text, CLOSE, topicPos);
    if close < 0 then |text| else close
  }

  function Moved(r: Found, offset: nat): Found { if r.NoTopic? then r else r.(next := offset + r.next) }

  function FirstBlock(text: string, topic: string, from: nat): (r: Found)
    requires topic != ""
    ensures r.Found? ==> from < r.next <= |text|
  {
    var topicPos := IndexOf(text, topic, from);
    if topicPos < 0 then NoTopic
    else
      var blockEnd := BlockEnd(text, topicPos);
      // Past the whole block, or by one.
      Found(Spanned(text, ValueSpan(text, topicPos, blockEnd)), if blockEnd > topicPos then blockEnd else topicPos + 1)
  }

  /** extractEventStateValue from here on; last is the latest value so far. */
  function Extracted(text: string, topic: string, last: string): string
    requires topic != ""
    decreases |text|
  {
    match FirstBlock(text, topic, 0)
    case NoTopic => last
    case Found(raw, next) =>
      var state := Trimmed(raw);
      if state == Some("true") then "true"
      else Extracted(text[next..], topic, if state.Some? then state.value else last)
  }

  // ---------- positions in a suffix ----------

  lemma OccursInSuffix(text: string, pat: string, from: nat, i: int)
    requires from <= |text| && i >= 0
    ensures OccursAt(text[from..], pat, i) <==> OccursAt(text, pat, from + i)
  {
    if i + |pat| <= |text| - from {
      assert text[from..][i..i + |pat|] == text[from + i..from + i + |pat|];
    }
  }

  function Shift(r: int, from: nat): int { if r < 0 then -1 else from + r }

  lemma IndexInSuffix(text: string, pat: string, from: nat, k: nat)
    requires from <= |text|
    ensures IndexOf(text, pat, from + k) == Shift(IndexOf(text[from..], pat, k), from)
  {
    IndexOfFirst(text, pat, from + k);
    IndexOfFirst(text[from..], pat, k);
    var r, s := IndexOf(text[from..], pat, k), IndexOf(text, pat, from + k);
    if r >= 0 { OccursInSuffix(text, pat, from, r); }
    if s >= 0 { OccursInSuffix(text, pat, from, s - from); }
  }

  lemma NameInSuffix(text: string, from: nat, topicPos: nat, blockEnd: nat)
    requires from <= |text|
    ensures StateName(text, from + topicPos, from + blockEnd)
         == Shift(StateName(text[from..], topicPos, blockEnd), from)
  {
    IndexInSuffix(text, "Name=\"State\"", from, topicPos);
    IndexInSuffix(text, "Name=\"state\"", from, topicPos);
    IndexInSuffix(text, "Name=\"IsMotion\"", from, topicPos);
  }

  lemma QuoteInSuffix(text: string, from: nat, topicPos: nat, blockEnd: nat)
    requires from <= |text|
    ensures ValueQuote(text, from + topicPos, from + blockEnd)
         == Shift(ValueQuote(text[from..], topicPos, blockEnd), from)
  {
    hide StateName;
    NameInSuffix(text, from, topicPos, blockEnd);
    var p := StateName(text[from..], topicPos, blockEnd);
    if 0 <= p < blockEnd { IndexInSuffix(text, "Value=", from, p); }
  }

  lemma SpanInSuffix(text: string, from: nat, topicPos: nat, blockEnd: nat)
    requires from <= |text|
    ensures var span := ValueSpan(text[from..], topicPos, blockEnd);
            ValueSpan(text, from + topicPos, from + blockEnd)
            == if span.Some? then Some((from + span.value.0, from + span.value.1)) else None
  {
    hide ValueQuote;
    var rest := text[from..];
    QuoteInSuffix(text, from, topicPos, blockEnd);
    var q := ValueQuote(rest, topicPos, blockEnd);
    if q >= 0 { IndexInSuffix(text, [rest[q]], from, q + 1); }
  }

  lemma SliceInSuffix(text: string, from: nat, i: nat, j: nat)
    requires from <= |text| && i <= j <= |text| - from
    ensures text[from + i..from + j] == text[from..][i..j]
  {
  }

  lemma ValueInSuffix(text: string, from: nat, topicPos: nat, blockEnd: nat)
    requires from <= |text|
    ensures Spanned(text, ValueSpan(text, from + topicPos, from + blockEnd))
         == Spanned(text[from..], ValueSpan(text[from..], topicPos, blockEnd))
  {
    hide ValueSpan;
    SpanInSuffix(text, from, topicPos, blockEnd);
    var span := ValueSpan(text[from..], topicPos, blockEnd);
    if span.Some? { SliceInSuffix(text, from, span.value.0, span.value.1); }
  }

  lemma BlockEndInSuffix(text: string, from: nat, topicPos: nat)
    requires from <= |text|
    ensures BlockEnd(text, from + topicPos) == from + BlockEnd(text[from..], topicPos)
  {
    IndexInSuffix(text, CLOSE, from, topicPos);
  }

  lemma FirstBlockInSuffix(text: string, topic: string, from: nat)
    requires topic != "" && from <= |text|
    ensures FirstBlock(text, topic, from) == Moved(FirstBlock(text[from..], topic, 0), from)
  {
    hide ValueSpan, Spanned, BlockEnd, IndexOf;
    IndexInSuffix(text, topic, from, 0);
    var topicPos := IndexOf(text[from..], topic, 0);
    if topicPos >= 0 {
      BlockEndInSuffix(text, from, topicPos);
      ValueInSuffix(text, from, topicPos, BlockEnd(text[from..], topicPos));
    }
  }

  lemma NextBlock(text: string, topic: string, from: nat, last: string)
    requires topic != "" && from <= |text|
    ensures Extracted(text[from..], topic, last) ==
        match FirstBlock(text, topic, from)
        case NoTopic => last
        case Found(raw, next) =>
          if Trimmed(raw) == Some("true") then "true"
          else Extracted(text[next..], topic, if raw.Some? then Trimmed(raw).value else last)
  {
    hide ValueSpan, Spanned, BlockEnd, FirstBlock, Trim;
    FirstBlockInSuffix(text, topic, from);
    var r := FirstBlock(text[from..], topic, 0);
    if r.Found? { assert text[from..][r.next..] == text[from + r.next..]; }
  }

  /** The loop of extractEventStateValue; it moves past one block at a time. */
  method ExtractEventStateValue(xml: string, topic: string) returns (value: string)
    requires topic != ""
    ensures value == Extracted(xml, topic, "")
  {
    hide ValueSpan, Spanned, Extracted;
    assert xml[0..] == xml;
    value := "";
    var searchFrom := 0;
    while true
      invariant searchFrom <= |xml|
      invariant Extracted(xml, topic, "") == Extracted(xml[searchFrom..], topic, value)
      decreases |xml| - searchFrom
    {
      NextBlock(xml, topic, searchFrom, value);
      var topicPos := IndexOf(xml, topic, searchFrom);
      if topicPos < 0 { return; }
      var blockEnd := BlockEnd(xml, topicPos);
      var state := Trimmed(Spanned(xml, ValueSpan(xml, topicPos, blockEnd)));
      if state == Some("true") { return "true"; }
      if state.Some? { value := state.value; }
      searchFrom := if blockEnd > topicPos then blockEnd else topicPos + 1;
    }
  }

  // ---------- a batch of blocks ----------

  /** A batch: blocks, each up to its closing tag, then whatever follows the last. */
  function Batch(blocks: seq<string>, trailer: string): string
  {
    if blocks == [] then trailer else blocks[0] + CLOSE + Batch(blocks[1..], trailer)
  }

  /** The value one block alone holds for a topic, and the state it reports. */
  function BlockValue(block: string, topic: string): Option<string>
  {
    var topicPos := IndexOf(block, topic, 0);
    if topicPos < 0 then None else Spanned(block, ValueSpan(block, topicPos, |block|))
  }

  function BlockState(block: string, topic: string): Option<string> { Trimmed(BlockValue(block, topic)) }

  /** A value that opens in the block closes in it. */
  predicate ValueCloses(block: string, topic: string)
  {
    var topicPos := IndexOf(block, topic, 0);
    topicPos < 0
    || var q := ValueQuote(block, topicPos, |block|);
       q < 0 || IndexOf(block, [block[q]], q + 1) >= 0
  }

  ghost predicate Keyword(topic: string)
  {
    topic != "" && '<' !in topic && '>' !in topic && !Contains(CLOSE, topic)
  }

  ghost predicate WellFormed(blocks: seq<string>, trailer: string, topic: string)
  {
    && (forall i :: 0 <= i < |blocks| ==> !Contains(blocks[i], CLOSE) && ValueCloses(blocks[i], topic))
    && !Contains(trailer, topic)
  }

  ghost predicate ReportedBy(blocks: seq<string>, topic: string)
  {
    exists i :: 0 <= i < |blocks| && BlockState(blocks[i], topic) == Some("true")
  }

  /** What reading the blocks one by one, each on its own, would give. */
  function Verdict(blocks: seq<string>, topic: string, last: string): string
  {
    if blocks == [] then last
    else
      var state := BlockState(blocks[0], topic);
      if state == Some("true") then "true"
      else Verdict(blocks[1..], topic, if state.Some? then state.value else last)
  }

  /** Inside a block, a search that avoids '<' cannot tell what follows it. */
  lemma IndexInBlock(block: string, rest: string, pat: string, from: nat)
    requires '<' !in pat && pat != "" && from <= |block|
    ensures var r := IndexOf(block, pat, from);
            var s := IndexOf(block + CLOSE + rest, pat, from);
            if r >= 0 then s == r else s < 0 || s > |block|
  {
    IndexOfFirst(block, pat, from);
    IndexOfFirst(block + CLOSE + rest, pat, from);
    var text := block + CLOSE + rest;
    assert text == block + ['<'] + (CLOSE[1..] + rest);
    forall i | 0 <= i <= |block|
      ensures OccursAt(text, pat, i) <==> OccursAt(block, pat, i)
    {
      OccursBefore(block, '<', CLOSE[1..] + rest, pat, i);
    }
  }

  lemma ClosingTagEndsBlock(block: string, rest: string, from: nat)
    requires !Contains(block, CLOSE) && from <= |block|
    ensures IndexOf(block + CLOSE + rest, CLOSE, from) == |block|
  {
    var text := block + CLOSE + rest;
    IndexOfFirst(text, CLOSE, from);
    assert text[|block|..|block| + |CLOSE|] == CLOSE;
    assert OccursAt(text, CLOSE, |block|);
    assert text[|block|] == '<' && forall k :: 0 < k < |CLOSE| ==> CLOSE[k] != '<';
    forall i | 0 <= i < |block|
      ensures !OccursAt(text, CLOSE, i)
    {
      if i + |CLOSE| <= |block| {
        assert text[i..i + |CLOSE|] == block[i..i + |CLOSE|];
        assert !OccursAt(block, CLOSE, i);
      } else {
        Mismatch(text, CLOSE, i, |block| - i);
      }
    }
  }

  lemma NameInBlock(block: string, rest: string, topicPos: nat)
    requires topicPos <= |block|
    ensures var p, p' := StateName(block, topicPos, |block|), StateName(block + CLOSE + rest, topicPos, |block|);
            if 0 <= p < |block| then p' == p else !(0 <= p' < |block|)
  {
    IndexInBlock(block, rest, "Name=\"State\"", topicPos);
    IndexInBlock(block, rest, "Name=\"state\"", topicPos);
    IndexInBlock(block, rest, "Name=\"IsMotion\"", topicPos);
  }

  lemma QuoteInBlock(block: string, rest: string, topicPos: nat)
    requires topicPos <= |block|
    ensures ValueQuote(block + CLOSE + rest, topicPos, |block|) == ValueQuote(block, topicPos, |block|)
  {
    hide StateName;
    NameInBlock(block, rest, topicPos);
    var p := StateName(block, topicPos, |block|);
    if 0 <= p < |block| { IndexInBlock(block, rest, "Value=", p); }
  }

  lemma SpanInBlock(block: string, rest: string, topic: string)
    requires IndexOf(block, topic, 0) >= 0 && ValueCloses(block, topic)
    ensures ValueSpan(block + CLOSE + rest, IndexOf(block, topic, 0), |block|)
         == ValueSpan(block, IndexOf(block, topic, 0), |block|)
  {
    hide ValueQuote;
    var topicPos := IndexOf(block, topic, 0);
    QuoteInBlock(block, rest, topicPos);
    var q := ValueQuote(block, topicPos, |block|);
    if q >= 0 { IndexInBlock(block, rest, [block[q]], q + 1); }
  }

  lemma ValueInBlock(block: string, rest: string, topic: string)
    requires IndexOf(block, topic, 0) >= 0 && ValueCloses(block, topic)
    ensures Spanned(block + CLOSE + rest, ValueSpan(block + CLOSE + rest, IndexOf(block, topic, 0), |block|))
         == BlockValue(block, topic)
  {
    hide ValueQuote, IndexOf;
    SpanInBlock(block, rest, topic);
    var span := ValueSpan(block, IndexOf(block, topic, 0), |block|);
    if span.Some? {
      assert (block + CLOSE + rest)[span.value.0..span.value.1] == block[span.value.0..span.value.1];
    }
  }

  lemma FirstIsThisBlock(block: string, rest: string, topic: string)
    requires IndexOf(block, topic, 0) >= 0 && topic != "" && '<' !in topic
    requires !Contains(block, CLOSE) && ValueCloses(block, topic)
    ensures FirstBlock(block + CLOSE + rest, topic, 0) == Found(BlockValue(block, topic), |block|)
  {
    hide ValueSpan, Spanned, IndexOf;
    IndexInBlock(block, rest, topic, 0);
    ClosingTagEndsBlock(block, rest, IndexOf(block, topic, 0));
    ValueInBlock(block, rest, topic);
  }

  /** Text in which the topic does not start can be skipped. */
  lemma SkipPrefix(text: string, from: nat, topic: string, last: string)
    requires topic != "" && from <= |text|
    requires forall i :: 0 <= i < from ==> !OccursAt(text, topic, i)
    ensures Extracted(text, topic, last) == Extracted(text[from..], topic, last)
  {
    hide ValueSpan;
    FirstBlockSkips(text, from, topic);
    FirstBlockInSuffix(text, topic, from);
    var r := FirstBlock(text[from..], topic, 0);
    if r.Found? { assert text[from..][r.next..] == text[from + r.next..]; }
  }

  lemma FirstBlockSkips(text: string, from: nat, topic: string)
    requires topic != "" && from <= |text|
    requires forall i :: 0 <= i < from ==> !OccursAt(text, topic, i)
    ensures FirstBlock(text, topic, 0) == FirstBlock(text, topic, from)
  {
    hide ValueSpan;
    IndexOfFirst(text, topic, 0);
    IndexOfFirst(text, topic, from);
  }

  lemma SkipClosingTag(rest: string, topic: string, last: string)
    requires Keyword(topic)
    ensures Extracted(CLOSE + rest, topic, last) == Extracted(rest, topic, last)
  {
    var text := CLOSE + rest;
    var n := |CLOSE| - 1;
    assert text == CLOSE[..n] + ['>'] + rest && CLOSE == CLOSE[..n] + ['>'] + "";
    forall i | 0 <= i < |CLOSE|
      ensures !OccursAt(text, topic, i)
    {
      OccursBefore(CLOSE[..n], '>', rest, topic, i);
      OccursBefore(CLOSE[..n], '>', "", topic, i);
      assert !OccursAt(CLOSE, topic, i);
    }
    SkipPrefix(text, |CLOSE|, topic, last);
    assert text[|CLOSE|..] == rest;
  }

  lemma OneBlock(block: string, rest: string, topic: string, last: string)
    requires Keyword(topic) && !Contains(block, CLOSE) && ValueCloses(block, topic)
    ensures Extracted(block + CLOSE + rest, topic, last)
         == var state := BlockState(block, topic);
            if state == Some("true") then "true"
            else Extracted(rest, topic, if state.Some? then state.value else last)
  {
    var text := block + CLOSE + rest;
    var topicPos := IndexOf(block, topic, 0);
    IndexInBlock(block, rest, topic, 0);
    assert text[|block|..] == CLOSE + rest;
    if topicPos < 0 {
      assert forall i :: 0 <= i < |block| ==> !OccursAt(text, topic, i) by { IndexOfFirst(text, topic, 0); }
      SkipPrefix(text, |block|, topic, last);
      SkipClosingTag(rest, topic, last);
    } else {
      FirstIsThisBlock(block, rest, topic);
      var state := BlockState(block, topic);
      SkipClosingTag(rest, topic, if state.Some? then state.value else last);
    }
  }

  /** A batch is read block by block, each by its own content alone. */
  lemma {:induction false} BatchRead(blocks: seq<string>, trailer: string, topic: string, last: string)
    requires Keyword(topic) && WellFormed(blocks, trailer, topic)
    ensures Extracted(Batch(blocks, trailer), topic, last) == Verdict(blocks, topic, last)
  {
    if blocks == [] {
      IndexOfFirst(trailer, topic, 0);
    } else {
      OneBlock(blocks[0], Batch(blocks[1..], trailer), topic, last);
      var state := BlockState(blocks[0], topic);
      BatchRead(blocks[1..], trailer, topic, if state.Some? then state.value else last);
    }
  }

  lemma {:induction false} VerdictTrue(blocks: seq<string>, topic: string, last: string)
    requires last != "true"
    ensures Verdict(blocks, topic, last) == "true" <==> ReportedBy(blocks, topic)
  {
    if blocks != [] {
      var state := BlockState(blocks[0], topic);
      if state != Some("true") {
        VerdictTrue(blocks[1..], topic, if state.Some? then state.value else last);
        if ReportedBy(blocks, topic) {
          var i :| 0 <= i < |blocks| && BlockState(blocks[i], topic) == Some("true");
          assert blocks[1..][i - 1] == blocks[i];
        }
      }
    }
  }

  function TopicReportedTrue(xml: string, topic: string): bool
    requires topic != ""
  {
    Extracted(xml, topic, "") == "true"
  }

  /** topicReportedTrue holds exactly when some block of that topic carries true. */
  lemma TopicTrueExactly(blocks: seq<string>, trailer: string, topic: string)
    requires Keyword(topic) && WellFormed(blocks, trailer, topic)
    ensures TopicReportedTrue(Batch(blocks, trailer), topic) <==> ReportedBy(blocks, topic)
  {
    BatchRead(blocks, trailer, topic, "");
    VerdictTrue(blocks, topic, "");
  }

  // ---------- parseEvents ----------

  const MOTION_ALARM := "MotionAlarm"
  const CELL_MOTION := "CellMotionDetector"
  const PEOPLE := "PeopleDetect"
  const VEHICLE := "VehicleDetect"
  const DOG_CAT := "DogCatDetect"
  const SIGNAL_LOSS := "SignalLoss"
  const TAMPER := "TamperDetector"
  const TOPICS := [MOTION_ALARM, CELL_MOTION, PEOPLE, VEHICLE, DOG_CAT, SIGNAL_LOSS, TAMPER]

  /** Each keyword may be searched for in a batch: it never overlaps a closing tag. */
  lemma TopicsAreKeywords(topic: string)
    requires topic in TOPICS
    ensures Keyword(topic)
  {
    assert forall i :: 0 <= i < |CLOSE| && i != 19 ==>
        CLOSE[i] != 'M' && CLOSE[i] != 'C' && CLOSE[i] != 'P' && CLOSE[i] != 'V' && CLOSE[i] != 'D'
        && CLOSE[i] != 'S' && CLOSE[i] != 'T';
    assert CLOSE[19] == 'M' && CLOSE[20] == 'e' && (topic[0] == 'M' ==> topic[1] == 'o');
    forall i | 0 <= i < |CLOSE|
      ensures !OccursAt(CLOSE, topic, i)
    {
      if CLOSE[i] != topic[0] { Mismatch(CLOSE, topic, i, 0); } else { Mismatch(CLOSE, topic, i, 1); }
    }
  }

  /** Whether the body says true anywhere: the gate in front of everything else. */
  function AnyTrue(xml: string): bool
  {
    IndexOf(xml, "Value=\"true\"", 0) >= 0 || IndexOf(xml, "Value='true'", 0) >= 0
  }

  function Present(xml: string, topic: string): bool { IndexOf(xml, topic, 0) >= 0 }

  function Fired(xml: string, topic: string): bool
    requires topic != ""
  {
    Present(xml, topic) && TopicReportedTrue(xml, topic)
  }

  datatype MotionKind = Generic | Person | Vehicle | Pet

  /** motionSeen: lastMotionMs is refreshed. motion: the alert raised, if any. */
  datatype Reaction = Reaction(motionSeen: bool, motion: Option<MotionKind>, tamper: bool, signalLoss: bool)

  const NO_REACTION := Reaction(false, None, false, false)

  datatype AlertChoices = AlertChoices(person: bool, vehicle: bool, pet: bool)

  /** Which topics a batch reports true. */
  datatype Fires = Fires(
    motionAlarm: bool, cellMotion: bool, people: bool, vehicle: bool, dogCat: bool, signalLoss: bool, tamper: bool)

  function AllFired(xml: string): Fires
  {
    Fires(Fired(xml, MOTION_ALARM), Fired(xml, CELL_MOTION), Fired(xml, PEOPLE), Fired(xml, VEHICLE),
          Fired(xml, DOG_CAT), Fired(xml, SIGNAL_LOSS), Fired(xml, TAMPER))
  }

  /** The decision, topic by topic. */
  function Reacted(cfg: AlertChoices, anyTrue: bool, f: Fires): Reaction
  {
    if !anyTrue then NO_REACTION
    else
      var plain := f.motionAlarm || f.cellMotion;
      Reaction(
        plain || f.people || f.vehicle || f.dogCat,
        if f.people && cfg.person then Some(Person)
        else if f.vehicle && cfg.vehicle then Some(Vehicle)
        else if plain then Some(Generic)
        else if f.dogCat && !f.people && !f.vehicle && cfg.pet then Some(Pet)
        else None,
        f.tamper, f.signalLoss)
  }

  method ParseEvents(cfg: AlertChoices, xml: string) returns (r: Reaction)
    ensures r == Reacted(cfg, AnyTrue(xml), AllFired(xml))
  {
    hide Present, TopicReportedTrue, AnyTrue;
    r := NO_REACTION;
    if !AnyTrue(xml) { return; }
    var motionAlarm, cellMotion := Present(xml, MOTION_ALARM), Present(xml, CELL_MOTION);
    var people, vehicle, dogCat := Present(xml, PEOPLE), Present(xml, VEHICLE), Present(xml, DOG_CAT);
    var signalLoss, tamper := Present(xml, SIGNAL_LOSS), Present(xml, TAMPER);
    if !motionAlarm && !cellMotion && !people && !vehicle && !dogCat && !signalLoss && !tamper { return; }
    var personDetected := people && TopicReportedTrue(xml, PEOPLE);
    var vehicleDetected := vehicle && TopicReportedTrue(xml, VEHICLE);
    var plainMotionDetected :=
      (motionAlarm && TopicReportedTrue(xml, MOTION_ALARM)) || (cellMotion && TopicReportedTrue(xml, CELL_MOTION));
    if personDetected || vehicleDetected || plainMotionDetected {
      r := r.(motionSeen := true);
      var personWantsAlert := personDetected && cfg.person;
      var vehicleWantsAlert := vehicleDetected && cfg.vehicle;
      if personWantsAlert || vehicleWantsAlert || plainMotionDetected {
        r := r.(motion := Some(if personWantsAlert then Person else if vehicleWantsAlert then Vehicle else Generic));
      }
    } else if dogCat && TopicReportedTrue(xml, DOG_CAT) {
      r := r.(motionSeen := true);
      if cfg.pet { r := r.(motion := Some(Pet)); }
    }
    if tamper && TopicReportedTrue(xml, TAMPER) { r := r.(tamper := true); }
    if signalLoss && TopicReportedTrue(xml, SIGNAL_LOSS) { r := r.(signalLoss := true); }
  }

  lemma QuoteFollowsValue(text: string, topicPos: nat, blockEnd: nat)
    ensures var q := ValueQuote(text, topicPos, blockEnd); q >= 0 ==> q >= 6 && text[q - 6..q] == "Value="
  {
    var p := StateName(text, topicPos, blockEnd);
    if 0 <= p < blockEnd { IndexOfFirst(text, "Value=", p); }
    hide StateName, IndexOf;
  }

  lemma SpanIsQuoted(text: string, topicPos: nat, blockEnd: nat)
    requires ValueSpan(text, topicPos, blockEnd).Some?
    ensures var span, q := ValueSpan(text, topicPos, blockEnd).value, ValueQuote(text, topicPos, blockEnd);
            0 <= q < |text| && span.0 == q + 1 && span.1 < |text| && text[span.1] == text[q]
  {
    hide ValueQuote;
    var q := ValueQuote(text, topicPos, blockEnd);
    IndexOfFirst(text, [text[q]], q + 1);
    hide IndexOf;
    var end := ValueSpan(text, topicPos, blockEnd).value.1;
    assert text[end..end + 1][0] == [text[q]][0];
  }

  lemma TrueValue(block: string, topic: string) returns (v: nat, pat: string)
    requires BlockValue(block, topic) == Some("true")
    ensures pat == "Value=\"true\"" || pat == "Value='true'"
    ensures OccursAt(block, pat, v)
  {
    hide ValueSpan, ValueQuote, IndexOf, OccursAt;
    var topicPos := IndexOf(block, topic, 0);
    SpanIsQuoted(block, topicPos, |block|);
    QuoteFollowsValue(block, topicPos, |block|);
    var q := ValueQuote(block, topicPos, |block|);
    v := q - 6;
    pat := "Value=" + [block[q]] + "true" + [block[q]];
    QuotedTrue(block, v, block[q]);
    assert pat == if block[q] == '"' then "Value=\"true\"" else "Value='true'";
  }

  lemma QuotedTrue(s: string, v: nat, quote: char)
    requires v + 12 <= |s| && s[v..v + 6] == "Value=" && s[v + 7..v + 11] == "true"
    requires s[v + 6] == quote == s[v + 11]
    ensures OccursAt(s, "Value=" + [quote] + "true" + [quote], v)
  {
    assert s[v..v + 12] == s[v..v + 6] + [s[v + 6]] + s[v + 7..v + 11] + [s[v + 11]];
  }

  /** The gate never closes on a block whose value is exactly true. */
  lemma {:induction false} TrueOpensGate(blocks: seq<string>, trailer: string, topic: string, i: nat)
    requires i < |blocks| && BlockValue(blocks[i], topic) == Some("true")
    ensures AnyTrue(Batch(blocks, trailer))
  {
    var text := Batch(blocks, trailer);
    if i == 0 {
      var block := blocks[0];
      var v, pat := TrueValue(block, topic);
      hide BlockValue;
      assert text[v..v + |pat|] == block[v..v + |pat|];
      IndexOfFirst(text, pat, 0);
      assert OccursAt(text, pat, v);
      hide IndexOf;
    } else {
      TrueOpensGate(blocks[1..], trailer, topic, i - 1);
      var rest := Batch(blocks[1..], trailer);
      var n := |blocks[0] + CLOSE|;
      assert text[n..] == rest;
      GateInSuffix(text, n, "Value=\"true\"");
      GateInSuffix(text, n, "Value='true'");
    }
  }

  lemma GateInSuffix(text: string, from: nat, pat: string)
    requires from <= |text|
    ensures IndexOf(text[from..], pat, 0) >= 0 ==> IndexOf(text, pat, 0) >= 0
  {
    IndexInSuffix(text, pat, from, 0);
    IndexOfFirst(text, pat, from);
    IndexOfFirst(text, pat, 0);
  }
}
