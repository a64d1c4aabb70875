/** Batches as cameras write them: a renderer for notification blocks, and what
    parseEvents makes of the text (lib/camera_parse, src/camera.cpp). */
module RenderedEvents {
  import opened Common
  import opened Text
  import opened CameraEvents

  // ---------- the renderer ----------

  datatype StateAttribute = UpperState | LowerState | IsMotion

  /** One block as a camera writes it. A Report names its topic, then the state
      attribute, then the quoted value; a Mute names a topic without a state;
      Other blocks name none of the topics. The free parts hold whatever else
      the camera sends. */
  datatype Notification =
    | Report(before: string, topic: string, between: string, name: StateAttribute, gap: string,
             quote: char, value: string, after: string)
    | Mute(before: string, topic: string, after: string)
    | Other(text: string)

  const UPPER_STATE := "Name=\"State\""
  const LOWER_STATE := "Name=\"state\""
  const IS_MOTION := "Name=\"IsMotion\""
  const VALUE := "Value="

  function NameText(name: StateAttribute): string
  {
    match name
    case UpperState => UPPER_STATE
    case LowerState => LOWER_STATE
    case IsMotion => IS_MOTION
  }

  /** From the state attribute on. */
  function Attribute(n: Notification): string
    requires n.Report?
  {
    NameText(n.name) + n.gap + (VALUE + ([n.quote] + (n.value + ([n.quote] + n.after))))
  }

  function Render(n: Notification): string
  {
    match n
    case Report(before, topic, between, _, _, _, _, _) => before + (topic + between + Attribute(n))
    case Mute(before, topic, after) => before + (topic + after)
    case Other(text) => text
  }

  /** Topic keywords occur only from the block's own topic on, and only that
      keyword; the closing tag does not occur. */
  ghost predicate OwnTopicOnly(n: Notification)
  {
    && !Contains(Render(n), CLOSE)
    && (forall t, i :: t in TOPICS && OccursAt(Render(n), t, i) ==>
          !n.Other? && t == n.topic && i >= |n.before|)
    && (!n.Other? ==> n.topic in TOPICS)
  }

  /** The parts between topic and value do not pass for another state attribute or value. */
  ghost predicate PlainParts(n: Notification)
  {
    match n
    case Report(_, topic, between, name, gap, quote, value, _) =>
      && (quote == '"' || quote == '\'') && quote !in value
      && !Contains(between, NameText(name)) && !Contains(gap, VALUE)
      && (name != UpperState ==> !Contains(topic + between + Attribute(n), UPPER_STATE))
      && (name == IsMotion ==> !Contains(topic + between + Attribute(n), LOWER_STATE))
    case Mute(_, topic, after) =>
      && !Contains(topic + after, UPPER_STATE) && !Contains(topic + after, LOWER_STATE)
      && !Contains(topic + after, IS_MOTION)
    case Other(_) => true
  }

  ghost predicate Rendered(n: Notification) { OwnTopicOnly(n) && PlainParts(n) }

  // A pattern whose first char does not come back within it cannot straddle a
  // boundary that starts with that char, nor start where that char is missing.

  predicate Headed(pat: string) { pat != "" && forall k :: 1 <= k < |pat| ==> pat[k] != pat[0] }

  lemma NoStraddle(a: string, b: string, pat: string, i: int)
    requires Headed(pat) && b != "" && b[0] == pat[0] && 0 <= i < |a|
    ensures OccursAt(a + b, pat, i) ==> OccursAt(a, pat, i)
  {
    var s := a + b;
    if i + |pat| > |a| {
      assert s[i + (|a| - i)] == b[0];
      Mismatch(s, pat, i, |a| - i);
    } else {
      assert s[i..i + |pat|] == a[i..i + |pat|];
    }
  }

  lemma NoStart(s: string, pat: string, i: nat)
    requires pat != "" && i < |s| && s[i] != pat[0]
    ensures !OccursAt(s, pat, i)
  {
    Mismatch(s, pat, i, 0);
  }

  /** Whether the first occurrence at or after from is at p. */
  lemma FirstAt(s: string, pat: string, from: nat, p: nat)
    requires from <= p && OccursAt(s, pat, p) && forall i :: from <= i < p ==> !OccursAt(s, pat, i)
    ensures IndexOf(s, pat, from) == p
  {
    IndexOfFirst(s, pat, from);
  }

  lemma NowhereAt(s: string, pat: string, from: nat)
    requires forall i :: from <= i ==> !OccursAt(s, pat, i)
    ensures IndexOf(s, pat, from) == -1
  {
    IndexOfFirst(s, pat, from);
  }

  /** No topic keyword holds an N, the char every state attribute starts with. */
  lemma TopicsHoldNoN(topic: string)
    requires topic in TOPICS
    ensures 'N' !in topic && topic != ""
  {
  }

  lemma NamesHeaded(name: StateAttribute)
    ensures Headed(NameText(name)) && NameText(name)[0] == 'N' && 'V' !in NameText(name)
    ensures |NameText(name)| >= 12
  {
  }

  lemma TailIs(a: string, b: string)
    ensures (a + b)[|a|..] == b
  {
  }

  lemma NotBefore(a: string, b: string, c: string, pat: string, i: nat)
    requires i < |a| + |b| && Headed(pat) && pat[0] !in a && !Contains(b, pat) && c != "" && c[0] == pat[0]
    ensures !OccursAt(a + (b + c), pat, i)
  {
    var s := a + (b + c);
    if i < |a| {
      NoStart(s, pat, i);
    } else {
      TailIs(a, b + c);
      OccursInSuffix(s, pat, |a|, i - |a|);
      NoStraddle(b, c, pat, i - |a|);
    }
  }

  /** An occurrence found past a prefix without the pattern's first char and a
      part without the pattern is the first one. */
  lemma FirstPast(s: string, from: nat, a: string, b: string, c: string, pat: string)
    requires from <= |s| && s[from..] == a + (b + c)
    requires Headed(pat) && pat[0] !in a && !Contains(b, pat) && OccursAt(c, pat, 0)
    ensures IndexOf(s, pat, from) == from + |a| + |b|
  {
    var t, p := a + (b + c), from + |a| + |b|;
    assert c[0] == pat[0] by { assert c[0..|pat|][0] == c[0]; }
    TailIs(a + b, c);
    assert t == a + b + c;
    OccursInSuffix(t, pat, |a + b|, 0);
    OccursInSuffix(s, pat, from, |a| + |b|);
    forall i | from <= i < p
      ensures !OccursAt(s, pat, i)
    {
      OccursInSuffix(s, pat, from, i - from);
      NotBefore(a, b, c, pat, i - from);
    }
    FirstAt(s, pat, from, p);
  }

  lemma NoneInTail(s: string, from: nat, pat: string)
    requires from <= |s| && !Contains(s[from..], pat)
    ensures IndexOf(s, pat, from) == -1
  {
    forall i | from <= i
      ensures !OccursAt(s, pat, i)
    {
      OccursInSuffix(s, pat, from, i - from);
    }
    NowhereAt(s, pat, from);
  }

  lemma Sections(s: string, before: string, topic: string, between: string, attr: string)
    requires s == before + (topic + between + attr)
    ensures |before| + |topic| + |between| <= |s|
    ensures s[|before|..] == topic + between + attr == topic + (between + attr)
    ensures s[|before| + |topic| + |between|..] == attr
  {
    TailIs(before, topic + between + attr);
    assert s == before + topic + between + attr;
    TailIs(before + topic + between, attr);
  }

  lemma StateNameIs(s: string, pos: nat, np: nat, name: StateAttribute)
    requires IndexOf(s, NameText(name), pos) == np < |s|
    requires name != UpperState ==> IndexOf(s, UPPER_STATE, pos) == -1
    requires name == IsMotion ==> IndexOf(s, LOWER_STATE, pos) == -1
    ensures StateName(s, pos, |s|) == np
  {
    hide IndexOf;
  }

  lemma ReportStateName(n: Notification)
    requires n.Report? && Rendered(n)
    ensures var s, np := Render(n), |n.before| + |n.topic| + |n.between|;
            np < |s| && s[np..] == Attribute(n) && StateName(s, |n.before|, |s|) == np
  {
    hide NameText, Attribute, OwnTopicOnly, StateName, IndexOf, Contains, Headed, OccursAt;
    var s, pos, attr := Render(n), |n.before|, Attribute(n);
    ReportTopic(n);
    TopicsHoldNoN(n.topic);
    NamesHeaded(n.name);
    NameStarts(n);
    Sections(s, n.before, n.topic, n.between, attr);
    hide Render;
    FirstPast(s, pos, n.topic, n.between, attr, NameText(n.name));
    if n.name != UpperState { NoneInTail(s, pos, UPPER_STATE); }
    if n.name == IsMotion { NoneInTail(s, pos, LOWER_STATE); }
    StateNameIs(s, pos, pos + |n.topic| + |n.between|, n.name);
  }

  lemma ReportTopic(n: Notification)
    requires !n.Other? && Rendered(n)
    ensures n.topic in TOPICS
  {
  }

  lemma NameStarts(n: Notification)
    requires n.Report?
    ensures OccursAt(Attribute(n), NameText(n.name), 0) && Attribute(n) != ""
  {
    assert Attribute(n)[0..|NameText(n.name)|] == NameText(n.name);
  }

  lemma DropTwice(s: string, i: nat, j: nat)
    requires i + j <= |s|
    ensures s[i..][j..] == s[i + j..]
  {
  }

  function Assignment(quote: char, tail: string): string { VALUE + ([quote] + tail) }

  lemma AssignmentParts(quote: char, tail: string)
    ensures var a := Assignment(quote, tail);
            |a| == 7 + |tail| && a[6] == quote && a[7..] == tail && OccursAt(a, VALUE, 0)
  {
    var a := Assignment(quote, tail);
    assert a == (VALUE + [quote]) + tail;
    TailIs(VALUE + [quote], tail);
    assert a[0..6] == VALUE;
  }

  /** Where the value assignment and the value stand in the text from an attribute on. */
  lemma ValueSections(s: string, np: nat, name: string, gap: string, quote: char, tail: string)
    requires np <= |s| && s[np..] == name + gap + Assignment(quote, tail)
    ensures var vp := np + |name| + |gap|;
            && s[np..] == name + (gap + Assignment(quote, tail))
            && vp + 7 <= |s| && s[vp + 6] == quote && s[vp + 7..] == tail
  {
    hide Assignment;
    var vp, a := np + |name| + |gap|, Assignment(quote, tail);
    AssignmentParts(quote, tail);
    TailIs(name + gap, a);
    DropTwice(s, np, |name + gap|);
    DropTwice(s, vp, 7);
    assert s[vp..] == a;
    assert s[vp + 6] == s[vp..][6];
    assert name + gap + a == name + (gap + a);
  }

  lemma ValueQuoteIs(s: string, pos: nat, np: nat, vp: nat)
    requires StateName(s, pos, |s|) == np < |s| && IndexOf(s, VALUE, np) == vp && vp + 6 < |s|
    requires s[vp + 6] == '"' || s[vp + 6] == '\''
    ensures ValueQuote(s, pos, |s|) == vp + 6
  {
    hide StateName, IndexOf;
  }

  lemma ReportPlain(n: Notification)
    requires n.Report? && Rendered(n)
    ensures !Contains(n.gap, VALUE) && (n.quote == '"' || n.quote == '\'')
    ensures Attribute(n) == NameText(n.name) + n.gap + Assignment(n.quote, n.value + ([n.quote] + n.after))
  {
  }

  lemma ReportQuote(n: Notification)
    requires n.Report? && Rendered(n)
    ensures var s, q := Render(n), ValueQuote(Render(n), |n.before|, |Render(n)|);
            && 0 <= q && q + 1 <= |s| && s[q] == n.quote
            && s[q + 1..] == n.value + ([n.quote] + n.after)
  {
    hide Render, Rendered, NameText, Attribute, Assignment, StateName, ValueQuote, IndexOf, Contains, Headed, OccursAt;
    ReportStateName(n);
    ReportPlain(n);
    NamesHeaded(n.name);
    ValueHeaded();
    var s, np := Render(n), |n.before| + |n.topic| + |n.between|;
    var tail := n.value + ([n.quote] + n.after);
    AssignmentParts(n.quote, tail);
    ValueSections(s, np, NameText(n.name), n.gap, n.quote, tail);
    FirstPast(s, np, NameText(n.name), n.gap, Assignment(n.quote, tail), VALUE);
    ValueQuoteIs(s, |n.before|, np, np + |NameText(n.name)| + |n.gap|);
  }

  lemma ValueHeaded()
    ensures Headed(VALUE)
  {
  }

  lemma HeadMissing(s: string, pat: string)
    requires pat != "" && pat[0] !in s
    ensures !Contains(s, pat)
  {
    forall i | 0 <= i < |s|
      ensures !OccursAt(s, pat, i)
    {
      NoStart(s, pat, i);
    }
  }

  lemma ValueEnds(s: string, q: nat, quote: char, value: string, after: string)
    requires q < |s| && s[q + 1..] == value + ([quote] + after) && quote !in value
    ensures IndexOf(s, [quote], q + 1) == q + 1 + |value| && s[q + 1..q + 1 + |value|] == value
  {
    var tail := [quote] + after;
    assert s[q + 1..] == "" + (value + tail);
    assert tail[0..1] == [quote];
    HeadMissing(value, [quote]);
    FirstPast(s, q + 1, "", value, tail, [quote]);
    assert s[q + 1..q + 1 + |value|] == s[q + 1..][..|value|] == value;
  }

  /** A rendered report is read as its value. */
  lemma ReportRead(n: Notification)
    requires n.Report? && Rendered(n)
    ensures BlockValue(Render(n), n.topic) == Some(n.value) && ValueCloses(Render(n), n.topic)
  {
    hide Render, ValueQuote, Rendered, Contains;
    OwnTopicFirst(n);
    ReportQuote(n);
    ValueEnds(Render(n), ValueQuote(Render(n), |n.before|, |Render(n)|), n.quote, n.value, n.after);
  }

  lemma OwnTopicFirst(n: Notification)
    requires !n.Other? && Rendered(n)
    ensures IndexOf(Render(n), n.topic, 0) == |n.before| && n.topic != ""
    ensures n.Report? ==> n.quote == '"' || n.quote == '\''
    ensures n.Report? ==> n.quote !in n.value
  {
    var s := Render(n);
    TopicsHoldNoN(n.topic);
    assert OccursAt(s, n.topic, |n.before|);
    FirstAt(s, n.topic, 0, |n.before|);
  }

  lemma MuteRead(n: Notification)
    requires n.Mute? && Rendered(n)
    ensures BlockValue(Render(n), n.topic).None? && ValueCloses(Render(n), n.topic)
  {
    OwnTopicFirst(n);
    var s, pos := Render(n), |n.before|;
    assert s[pos..] == n.topic + n.after;
    NoneInTail(s, pos, UPPER_STATE);
    NoneInTail(s, pos, LOWER_STATE);
    NoneInTail(s, pos, IS_MOTION);
  }

  lemma OtherTopicUnread(n: Notification, topic: string)
    requires Rendered(n) && topic in TOPICS && (n.Other? || topic != n.topic)
    ensures BlockValue(Render(n), topic).None? && ValueCloses(Render(n), topic)
  {
    NowhereAt(Render(n), topic, 0);
  }

  /** What a block says about a topic, as written. */
  function Says(n: Notification, topic: string): Option<string>
  {
    if n.Report? && n.topic == topic then Some(n.value) else None
  }

  /** The parser reads off every rendered block exactly what it says. */
  lemma RenderedRead(n: Notification, topic: string)
    requires Rendered(n) && topic in TOPICS
    ensures BlockValue(Render(n), topic) == Says(n, topic) && ValueCloses(Render(n), topic)
    ensures !Contains(Render(n), CLOSE)
  {
    if n.Other? || topic != n.topic {
      OtherTopicUnread(n, topic);
    } else if n.Report? {
      ReportRead(n);
    } else {
      MuteRead(n);
    }
    hide BlockValue, ValueCloses, Render;
  }

  function RenderAll(ns: seq<Notification>): (r: seq<string>)
    ensures |r| == |ns| && forall i :: 0 <= i < |r| ==> r[i] == Render(ns[i])
  {
    seq(|ns|, i requires 0 <= i < |ns| => Render(ns[i]))
  }

  /** A batch of blocks, then text without any topic keyword. */
  ghost predicate RenderedBatch(ns: seq<Notification>, trailer: string)
  {
    && (forall i :: 0 <= i < |ns| ==> Rendered(ns[i]))
    && (forall t :: t in TOPICS ==> !Contains(trailer, t))
  }

  predicate Reports(n: Notification, topic: string) { n.Report? && n.topic == topic && Trim(n.value) == "true" }

  ghost predicate SomeReports(ns: seq<Notification>, topic: string)
  {
    exists i :: 0 <= i < |ns| && Reports(ns[i], topic)
  }

  lemma RenderedWellFormed(ns: seq<Notification>, trailer: string, topic: string)
    requires RenderedBatch(ns, trailer) && topic in TOPICS
    ensures WellFormed(RenderAll(ns), trailer, topic)
    ensures ReportedBy(RenderAll(ns), topic) <==> SomeReports(ns, topic)
  {
    forall i | 0 <= i < |ns|
      ensures BlockValue(RenderAll(ns)[i], topic) == Says(ns[i], topic)
      ensures ValueCloses(RenderAll(ns)[i], topic) && !Contains(RenderAll(ns)[i], CLOSE)
    {
      RenderedRead(ns[i], topic);
    }
    hide BlockValue, ValueCloses, Render, RenderAll, Trim, Rendered;
    var blocks := RenderAll(ns);
    assert forall i :: 0 <= i < |ns| ==> (BlockState(blocks[i], topic) == Some("true") <==> Reports(ns[i], topic));
  }

  /** A topic is reported true exactly when some block of that topic carries a
      value that is true, spaces aside: in batches of any length, with stale
      values, other topics and blocks without a state in between. */
  lemma ReportedTrueExactly(ns: seq<Notification>, trailer: string, topic: string)
    requires RenderedBatch(ns, trailer) && topic in TOPICS
    ensures topic != ""
    ensures TopicReportedTrue(Batch(RenderAll(ns), trailer), topic) <==> SomeReports(ns, topic)
  {
    TopicsAreKeywords(topic);
    RenderedWellFormed(ns, trailer, topic);
    TopicTrueExactly(RenderAll(ns), trailer, topic);
  }

  /** The reaction the written values call for. */
  ghost function Expected(cfg: AlertChoices, ns: seq<Notification>): Reaction
  {
    var plain := SomeReports(ns, MOTION_ALARM) || SomeReports(ns, CELL_MOTION);
    var person, vehicle := SomeReports(ns, PEOPLE), SomeReports(ns, VEHICLE);
    var pet := SomeReports(ns, DOG_CAT);
    Reaction(
      plain || person || vehicle || pet,
      if person && cfg.person then Some(Person)
      else if vehicle && cfg.vehicle then Some(Vehicle)
      else if plain then Some(Generic)
      else if pet && cfg.pet && !person && !vehicle then Some(Pet)
      else None,
      SomeReports(ns, TAMPER), SomeReports(ns, SIGNAL_LOSS))
  }

  predicate PaddedTrue(n: Notification) { n.Report? && Trim(n.value) == "true" && n.value != "true" }

  lemma FiredRendered(ns: seq<Notification>, trailer: string, topic: string)
    requires RenderedBatch(ns, trailer) && topic in TOPICS
    ensures topic != "" && (Fired(Batch(RenderAll(ns), trailer), topic) <==> SomeReports(ns, topic))
  {
    ReportedTrueExactly(ns, trailer, topic);
    assert TopicReportedTrue(Batch(RenderAll(ns), trailer), topic) ==> Present(Batch(RenderAll(ns), trailer), topic);
  }

  lemma ExactTrueOpensGate(ns: seq<Notification>, trailer: string, i: nat)
    requires RenderedBatch(ns, trailer) && i < |ns| && ns[i].Report? && ns[i].value == "true"
    ensures AnyTrue(Batch(RenderAll(ns), trailer))
  {
    RenderedRead(ns[i], ns[i].topic);
    TrueOpensGate(RenderAll(ns), trailer, ns[i].topic, i);
  }

  ghost predicate SomePadded(ns: seq<Notification>) { exists i :: 0 <= i < |ns| && PaddedTrue(ns[i]) }

  ghost predicate SomeExact(ns: seq<Notification>)
  {
    exists i :: 0 <= i < |ns| && ExactTrue(ns[i])
  }

  predicate ExactTrue(n: Notification) { n.Report? && n.value == "true" }

  /** parseEvents does what the written values call for, exactly, for every
      batch the body-wide gate lets through; and the gate holds nothing back
      unless every true value of the batch is padded. */
  lemma RenderedReaction(cfg: AlertChoices, ns: seq<Notification>, trailer: string)
    requires RenderedBatch(ns, trailer)
    ensures var text := Batch(RenderAll(ns), trailer);
            var r := Reacted(cfg, AnyTrue(text), AllFired(text));
            && r == (if AnyTrue(text) then Expected(cfg, ns) else NO_REACTION)
            && (SomeExact(ns) || !SomePadded(ns) ==> r == Expected(cfg, ns))
  {
    var text := Batch(RenderAll(ns), trailer);
    hide Fired, AnyTrue, Batch, RenderedBatch, Trim;
    FiredRendered(ns, trailer, MOTION_ALARM);
    FiredRendered(ns, trailer, CELL_MOTION);
    FiredRendered(ns, trailer, PEOPLE);
    FiredRendered(ns, trailer, VEHICLE);
    FiredRendered(ns, trailer, DOG_CAT);
    FiredRendered(ns, trailer, SIGNAL_LOSS);
    FiredRendered(ns, trailer, TAMPER);
    if SomeExact(ns) {
      var i :| 0 <= i < |ns| && ExactTrue(ns[i]);
      ExactTrueOpensGate(ns, trailer, i);
    } else if !SomePadded(ns) {
      NothingExpected(cfg, ns);
    }
  }

  lemma NothingExpected(cfg: AlertChoices, ns: seq<Notification>)
    requires !SomePadded(ns) && !SomeExact(ns)
    ensures Expected(cfg, ns) == NO_REACTION
  {
  }

  /** A muted person never hides a wanted vehicle; it does hide a wanted pet. */
  lemma MutedPersonHides(cfg: AlertChoices, ns: seq<Notification>)
    requires SomeReports(ns, PEOPLE) && !cfg.person
    ensures SomeReports(ns, VEHICLE) && cfg.vehicle ==> Expected(cfg, ns).motion == Some(Vehicle)
    ensures Expected(cfg, ns).motion != Some(Pet)
  {
  }

  const PADDED := Report("", MOTION_ALARM, "", UpperState, " ", '"', " true", "")
  const PADDED_TEXT := "MotionAlarmName=\"State\" Value=\" true\""

  lemma PaddedKeywords(t: string, i: nat)
    requires t in TOPICS && t != MOTION_ALARM
    ensures !OccursAt(PADDED_TEXT, t, i)
  {
    var s := PADDED_TEXT;
    if i < |s| && s[i] != t[0] {
      NoStart(s, t, i);
    } else if i < |s| {
      assert i == 0 || i == 17 || i == 24;
      Mismatch(s, t, i, 1);
    }
  }

  lemma PaddedText()
    ensures Render(PADDED) == PADDED_TEXT
  {
    assert Attribute(PADDED) == "Name=\"State\" Value=\" true\"";
  }

  lemma PaddedIsRendered()
    ensures Rendered(PADDED)
  {
    PaddedText();
    hide Render;
    HeadMissing(PADDED_TEXT, CLOSE);
    forall t, i | t in TOPICS && OccursAt(PADDED_TEXT, t, i)
      ensures t == MOTION_ALARM && i >= 0
    {
      if t != MOTION_ALARM && i >= 0 { PaddedKeywords(t, i); }
    }
    HeadMissing("", UPPER_STATE);
    HeadMissing(" ", VALUE);
    hide OccursAt, Contains;
  }

  lemma PaddedGate(pat: string)
    requires pat == "Value=\"true\"" || pat == "Value='true'"
    ensures IndexOf(PADDED_TEXT + CLOSE, pat, 0) == -1
  {
    var s := PADDED_TEXT + CLOSE;
    forall i | 0 <= i
      ensures !OccursAt(s, pat, i)
    {
      if i < |s| && s[i] != 'V' {
        NoStart(s, pat, i);
      } else if i < |s| {
        assert i == 24;
        Mismatch(s, pat, i, 7);
      }
    }
    NowhereAt(s, pat, 0);
  }

  /** A value that is true but for a space is a report to the parser and not to
      the gate in front of it: alone in its batch it raises no alert. */
  lemma PaddedTrueMissed(cfg: AlertChoices)
    ensures var text := Batch(RenderAll([PADDED]), "");
            && RenderedBatch([PADDED], "") && Expected(cfg, [PADDED]).motion == Some(Generic)
            && Reacted(cfg, AnyTrue(text), AllFired(text)) == NO_REACTION
  {
    var text := Batch(RenderAll([PADDED]), "");
    PaddedIsRendered();
    PaddedText();
    var blocks := RenderAll([PADDED]);
    assert blocks == [PADDED_TEXT] && blocks[1..] == [];
    assert Batch(blocks[1..], "") == "";
    assert text == PADDED_TEXT + CLOSE + "" == PADDED_TEXT + CLOSE;
    PaddedGate("Value=\"true\"");
    PaddedGate("Value='true'");
    assert Trim(" true") == "true" by {
      assert TrimLeft(" true") == TrimLeft(" true"[1..]) && " true"[1..] == "true";
    }
    assert Reports([PADDED][0], MOTION_ALARM);
  }
}
