/** Equation extraction from the OCR markdown (`extract_equations`) and the
    relevance text attached to each equation (`_describe_equation_relevance`). */
module OcrEquations {
  import opened Text
  import opened Models
  import opened OcrPatterns
  import opened OcrSections

  // ---------------------------------------------------------------- relevance

  /** The four kinds of equation the relevance text distinguishes. */
  datatype Role = Aggregates | Dynamic | Relation | Formal

  const AggregateTokens: seq<string> := ["\\int", "\\sum", "\\prod"]
  const DynamicTokens: seq<string> := ["\\dot", "\\ddot", "\\partial", "d/"]
  const RelationTokens: seq<string> := ["=", "\\mathbf", "\\mathbf{r}", "\\mathbf{n}"]

  /** The first token group found in the lower-cased LaTeX decides the kind. */
  function RoleOf(latex: string): Role
  {
    var lower := Lower(latex);
    if ContainsAny(lower, AggregateTokens) then Aggregates
    else if ContainsAny(lower, DynamicTokens) then Dynamic
    else if ContainsAny(lower, RelationTokens) then Relation
    else Formal
  }

  function RoleText(role: Role): string
  {
    match role
    case Aggregates => "aggregates contributions across components"
    case Dynamic => "captures dynamic rate-of-change behavior"
    case Relation => "defines a core state or transformation relationship"
    case Formal => "formalizes a mathematical relationship used by the method"
  }

  function ExampleText(role: Role): string
  {
    match role
    case Aggregates => "computing total system energy or accumulated force over elements"
    case Dynamic => "updating velocities/accelerations during time integration"
    case Relation => "mapping element coordinates to world coordinates in simulation"
    case Formal => "implementing the same formula in a numerical solver"
  }

  function DescriptionHead(section: string): string
  {
    "Relevance: In section '" + section + "', this equation "
  }

  /** `_describe_equation_relevance`: names the section, then the role and a
      potential use chosen by the equation's kind. */
  function Describe(latex: string, section: string): string
  {
    var role := RoleOf(latex);
    DescriptionHead(section) + (RoleText(role) + ". Potential use: ") + (ExampleText(role) + ".")
  }

  /** The description starts with the section's name and ends with the use
      that the equation's kind suggests. */
  lemma {:induction false} DescribeShape(latex: string, section: string)
    ensures StartsWith(Describe(latex, section), DescriptionHead(section))
    ensures EndsWith(Describe(latex, section), ExampleText(RoleOf(latex)) + ".")
  {
    var role := RoleOf(latex);
    ConcatEnds(DescriptionHead(section), RoleText(role) + ". Potential use: ", ExampleText(role) + ".");
  }

  /** The kinds are tried in order: an equation is dynamic only when it has
      no aggregation token, and so on down the list. */
  lemma {:induction false} RoleOrder(latex: string)
    ensures var lower := Lower(latex);
      (RoleOf(latex) == Aggregates <==> ContainsAny(lower, AggregateTokens))
      && (RoleOf(latex) == Dynamic <==> !ContainsAny(lower, AggregateTokens) && ContainsAny(lower, DynamicTokens))
      && (RoleOf(latex) == Relation <==>
            !ContainsAny(lower, AggregateTokens) && !ContainsAny(lower, DynamicTokens) && ContainsAny(lower, RelationTokens))
  {
  }

  /** `\mathbf{r}` and `\mathbf{n}` add nothing to the relation tokens: any
      text containing them contains `\mathbf`. */
  lemma {:induction false} RelationTokensRedundant(lower: string)
    ensures ContainsAny(lower, RelationTokens) <==> Contains(lower, "=") || Contains(lower, "\\mathbf")
  {
    if ContainsAny(lower, RelationTokens) {
      var k :| 0 <= k < |RelationTokens| && Contains(lower, RelationTokens[k]);
      if k >= 2 {
        var i := IndexOf(lower, RelationTokens[k], 0).value;
        assert lower[i..i + 7] == RelationTokens[k][..7];
        ContainsWitness(lower, "\\mathbf", i);
      }
    }
    if Contains(lower, "=") { assert Contains(lower, RelationTokens[0]); }
    if Contains(lower, "\\mathbf") { assert Contains(lower, RelationTokens[1]); }
  }

  // ---------------------------------------------------------------- equation records

  /** The stripped text from 100 characters before a match to 100 after it,
      clipped to the text (a Python slice, so empty when the bounds cross). */
  function Context(text: string, start: nat, end: nat): string
  {
    var a := if start < 100 then 0 else start - 100;
    var b := if end + 100 > |text| then |text| else end + 100;
    if a <= b then Strip(text[a..b]) else ""
  }

  /** The context of an equation is a piece of the text. */
  lemma {:induction false} ContextIsSubstring(text: string, start: nat, end: nat)
    ensures exists i, j :: 0 <= i <= j <= |text| && Context(text, start, end) == text[i..j]
  {
    var a := if start < 100 then 0 else start - 100;
    var b := if end + 100 > |text| then |text| else end + 100;
    if a <= b {
      var t := text[a..b];
      StripIsSlice(t);
      SliceOfSlice(text, a, b, StripStart(t), StripEnd(t));
      assert Context(text, start, end) == text[a + StripStart(t)..a + StripEnd(t)];
    } else {
      assert Context(text, start, end) == text[0..0];
    }
  }

  /** A match that the extraction keeps, with the counter value it took and
      the pass it came from. */
  datatype Slot = Slot(m: Found, number: nat, inline: bool)

  /** The record built for a kept match. Only display equations look for a
      `\label{eq:…}`. */
  function EquationFor(text: string, s: Slot): Equation
  {
    var latex := Strip(s.m.group);
    var section := ContainingSection(text, s.m.start);
    Equation(FormatId("eq_", s.number), latex, Context(text, s.m.start, s.m.end), section, s.inline,
             if s.inline then None else FindLabel(latex, 0), Describe(latex, section))
  }

  /** `eqs` holds the records of `slots`, one for one. */
  predicate Built(text: string, eqs: seq<Equation>, slots: seq<Slot>) {
    |eqs| == |slots| && forall k :: 0 <= k < |eqs| ==> eqs[k] == EquationFor(text, slots[k])
  }

  /** Whether a match is dropped: inline LaTeX shorter than three characters. */
  predicate Dropped(m: Found, inline: bool) {
    inline && |Strip(m.group)| < 3
  }

  /** The kept matches of one pass; the counter starts at `counter` and every
      match takes a value, dropped ones included. */
  function Kept(ms: seq<Found>, counter: nat, inline: bool): seq<Slot>
    decreases |ms|
  {
    if ms == [] then []
    else
      var rest := Kept(ms[1..], counter + 1, inline);
      if Dropped(ms[0], inline) then rest else [Slot(ms[0], counter + 1, inline)] + rest
  }

  /** All display matches, pattern by pattern. */
  function AllDisplay(text: string): seq<Found>
  {
    DisplayUpTo(text, |DisplayDelimiters|)
  }

  lemma {:induction false} KeptSnoc(ms: seq<Found>, m: Found, counter: nat, inline: bool)
    ensures Kept(ms + [m], counter, inline)
      == Kept(ms, counter, inline) + (if Dropped(m, inline) then [] else [Slot(m, counter + |ms| + 1, inline)])
    decreases |ms|
  {
    if ms != [] {
      assert (ms + [m])[1..] == ms[1..] + [m];
      KeptSnoc(ms[1..], m, counter + 1, inline);
    }
  }

  /** Every kept slot comes from the pass's matches, carries the pass's
      flag and a counter value in `(counter, counter + |ms|]`; inline slots
      hold LaTeX of at least three characters. */
  lemma {:induction false} KeptSlots(ms: seq<Found>, counter: nat, inline: bool)
    ensures forall s :: s in Kept(ms, counter, inline) ==>
      s.m in ms && s.inline == inline && counter < s.number <= counter + |ms|
      && (inline ==> |Strip(s.m.group)| >= 3)
    decreases |ms|
  {
    if ms != [] {
      KeptSlots(ms[1..], counter + 1, inline);
    }
  }

  /** The counter values of one pass rise strictly. */
  lemma {:induction false} KeptIncreasing(ms: seq<Found>, counter: nat, inline: bool)
    ensures forall k, l :: 0 <= k < l < |Kept(ms, counter, inline)| ==>
      Kept(ms, counter, inline)[k].number < Kept(ms, counter, inline)[l].number
    decreases |ms|
  {
    if ms != [] {
      KeptIncreasing(ms[1..], counter + 1, inline);
      KeptSlots(ms[1..], counter + 1, inline);
      var rest := Kept(ms[1..], counter + 1, inline);
      assert forall k :: 0 <= k < |rest| ==> rest[k] in rest;
    }
  }

  /** The display pass drops nothing: its values are `counter + 1,
      counter + 2, …` without gaps. */
  lemma {:induction false} KeptDisplay(ms: seq<Found>, counter: nat)
    ensures |Kept(ms, counter, false)| == |ms|
    ensures forall k :: 0 <= k < |ms| ==> Kept(ms, counter, false)[k] == Slot(ms[k], counter + k + 1, false)
    decreases |ms|
  {
    if ms != [] {
      KeptDisplay(ms[1..], counter + 1);
    }
  }

  /** The kept slots of a display pass over `d` followed by an inline pass
      over `ims` on the same counter. */
  function Passes(d: seq<Found>, ims: seq<Found>): seq<Slot>
  {
    Kept(d, 0, false) + Kept(ims, |d|, true)
  }

  /** The kept matches of `extract_equations`: the display pass, then the
      inline pass, one counter. */
  function Slots(text: string): seq<Slot>
  {
    Passes(AllDisplay(text), InlineMatches(text, 0))
  }

  /** The display slots come first, numbered from one without gaps. */
  lemma {:induction false} PassesDisplayFirst(d: seq<Found>, ims: seq<Found>)
    ensures |d| <= |Passes(d, ims)|
    ensures forall k :: 0 <= k < |d| ==> Passes(d, ims)[k] == Slot(d[k], k + 1, false)
  {
    KeptDisplay(d, 0);
  }

  /** After the display slots come the inline ones, each with LaTeX of at
      least three characters and a number past the display count. */
  lemma {:induction false} PassesInlineAfter(d: seq<Found>, ims: seq<Found>)
    ensures forall k :: |d| <= k < |Passes(d, ims)| ==>
      Passes(d, ims)[k].inline && |Strip(Passes(d, ims)[k].m.group)| >= 3 && Passes(d, ims)[k].number > |d|
  {
    var a := Kept(d, 0, false);
    var b := Kept(ims, |d|, true);
    KeptDisplay(d, 0);
    KeptSlots(ims, |d|, true);
    var r := a + b;
    forall k | |a| <= k < |r| ensures r[k].inline && |Strip(r[k].m.group)| >= 3 && r[k].number > |d| {
      assert r[k] == b[k - |a|];
      assert b[k - |a|] in b;
    }
  }

  /** The numbers of the two passes rise strictly. */
  lemma {:induction false} PassesIncreasing(d: seq<Found>, ims: seq<Found>)
    ensures forall k, l :: 0 <= k < l < |Passes(d, ims)| ==> Passes(d, ims)[k].number < Passes(d, ims)[l].number
  {
    var a := Kept(d, 0, false);
    var b := Kept(ims, |d|, true);
    PassesDisplayFirst(d, ims);
    PassesInlineAfter(d, ims);
    KeptIncreasing(ims, |d|, true);
    KeptDisplay(d, 0);
    var r := a + b;
    assert r == Passes(d, ims);
    forall k, l | 0 <= k < l < |r| ensures r[k].number < r[l].number {
      if l < |a| {
        assert r[k].number == k + 1 && r[l].number == l + 1;
      } else if k < |a| {
        assert r[k].number == k + 1 && r[l].number > |d|;
      } else {
        assert r[k] == b[k - |a|] && r[l] == b[l - |a|];
      }
    }
  }

  /** Every number lies between one and the final counter value, which is
      the count of all matches of both passes, dropped ones included. */
  lemma {:induction false} PassesBounded(d: seq<Found>, ims: seq<Found>)
    ensures forall k :: 0 <= k < |Passes(d, ims)| ==> 1 <= Passes(d, ims)[k].number <= |d| + |ims|
  {
    var a := Kept(d, 0, false);
    var b := Kept(ims, |d|, true);
    KeptDisplay(d, 0);
    KeptSlots(ims, |d|, true);
    var r := a + b;
    forall k | 0 <= k < |r| ensures 1 <= r[k].number <= |d| + |ims| {
      if k >= |a| {
        assert r[k] == b[k - |a|];
        assert b[k - |a|] in b;
      }
    }
  }

  /** The fields a record takes from its slot. */
  lemma {:induction false} EquationForFields(text: string, s: Slot)
    ensures EquationFor(text, s).id == FormatId("eq_", s.number)
    ensures EquationFor(text, s).isInline == s.inline
    ensures EquationFor(text, s).latex == Strip(s.m.group)
    ensures EquationFor(text, s).context == Context(text, s.m.start, s.m.end)
    ensures EquationFor(text, s).section == ContainingSection(text, s.m.start)
  {
  }

  /** Each record of the two passes takes its id, pass flag and LaTeX from
      its slot. */
  lemma {:induction false} BuiltFields(text: string, eqs: seq<Equation>, slots: seq<Slot>)
    requires Built(text, eqs, slots)
    ensures forall k :: 0 <= k < |eqs| ==>
      eqs[k].id == FormatId("eq_", slots[k].number) && eqs[k].isInline == slots[k].inline
      && eqs[k].latex == Strip(slots[k].m.group)
  {
    forall k | 0 <= k < |eqs|
      ensures eqs[k].id == FormatId("eq_", slots[k].number) && eqs[k].isInline == slots[k].inline
      ensures eqs[k].latex == Strip(slots[k].m.group)
    {
      EquationForFields(text, slots[k]);
    }
  }

  /** Records built from strictly rising numbers have distinct ids. */
  lemma {:induction false} BuiltIdsDistinct(text: string, eqs: seq<Equation>, slots: seq<Slot>)
    requires Built(text, eqs, slots)
    requires forall k, l :: 0 <= k < l < |slots| ==> slots[k].number < slots[l].number
    ensures forall k, l :: 0 <= k < l < |eqs| ==> eqs[k].id != eqs[l].id
  {
    BuiltFields(text, eqs, slots);
    forall k, l | 0 <= k < l < |eqs| ensures eqs[k].id != eqs[l].id {
      if eqs[k].id == eqs[l].id {
        FormatIdInjective("eq_", slots[k].number, slots[l].number);
      }
    }
  }

  /** The records of the two passes: ids are distinct, the display equations
      come first with ids `eq_001` onwards, and every inline equation after
      them has LaTeX of at least three characters. */
  lemma {:induction false} PassesIds(text: string, eqs: seq<Equation>, d: seq<Found>, ims: seq<Found>)
    requires Built(text, eqs, Passes(d, ims))
    ensures |d| <= |eqs|
    ensures forall k :: 0 <= k < |d| ==> !eqs[k].isInline && eqs[k].id == FormatId("eq_", k + 1)
    ensures forall k :: |d| <= k < |eqs| ==> eqs[k].isInline && |eqs[k].latex| >= 3
    ensures forall k, l :: 0 <= k < l < |eqs| ==> eqs[k].id != eqs[l].id
  {
    PassesDisplayFirst(d, ims);
    PassesInlineAfter(d, ims);
    PassesIncreasing(d, ims);
    BuiltFields(text, eqs, Passes(d, ims));
    BuiltIdsDistinct(text, eqs, Passes(d, ims));
  }

  /** The records of one `extract_equations` result: ids are distinct, the
      display equations come first with ids `eq_001` onwards, and every
      inline equation after them has LaTeX of at least three characters. */
  lemma {:induction false} EquationIds(text: string, eqs: seq<Equation>)
    requires Built(text, eqs, Slots(text))
    ensures |AllDisplay(text)| <= |eqs|
    ensures forall k :: 0 <= k < |AllDisplay(text)| ==> !eqs[k].isInline && eqs[k].id == FormatId("eq_", k + 1)
    ensures forall k :: |AllDisplay(text)| <= k < |eqs| ==> eqs[k].isInline && |eqs[k].latex| >= 3
    ensures forall k, l :: 0 <= k < l < |eqs| ==> eqs[k].id != eqs[l].id
  {
    PassesIds(text, eqs, AllDisplay(text), InlineMatches(text, 0));
  }

  /** Each record of the two passes comes from one of their matches. */
  lemma {:induction false} PassesSources(text: string, eqs: seq<Equation>, d: seq<Found>, ims: seq<Found>, k: nat)
    requires Built(text, eqs, Passes(d, ims)) && k < |eqs|
    ensures exists m :: ((m in d || m in ims)
      && eqs[k].latex == Strip(m.group) && eqs[k].context == Context(text, m.start, m.end)
      && eqs[k].section == ContainingSection(text, m.start))
  {
    var a := Kept(d, 0, false);
    var b := Kept(ims, |d|, true);
    KeptSlots(d, 0, false);
    KeptSlots(ims, |d|, true);
    var s := Passes(d, ims)[k];
    EquationForFields(text, s);
    if k < |a| {
      assert s == a[k] && a[k] in a;
    } else {
      assert s == b[k - |a|] && b[k - |a|] in b;
    }
  }

  /** Each record comes from a match of its pass: its LaTeX is the stripped
      group, its context the text around the match and its section the one
      containing the match start. */
  lemma {:induction false} EquationSources(text: string, eqs: seq<Equation>, k: nat)
    requires Built(text, eqs, Slots(text)) && k < |eqs|
    ensures exists m :: ((m in AllDisplay(text) || m in InlineMatches(text, 0))
      && eqs[k].latex == Strip(m.group) && eqs[k].context == Context(text, m.start, m.end)
      && eqs[k].section == ContainingSection(text, m.start))
  {
    PassesSources(text, eqs, AllDisplay(text), InlineMatches(text, 0), k);
  }

  // ---------------------------------------------------------------- the extraction loop

  /** One record of `extract_equations`, built from a match and the counter
      value it took. */
  method BuildEquation(text: string, m: Found, counter: nat, inline: bool) returns (e: Equation)
    ensures e == EquationFor(text, Slot(m, counter, inline))
  {
    var latex := Strip(m.group);
    var context := Context(text, m.start, m.end);
    var eqLabel := if inline then None else FindLabel(latex, 0);
    var section := FindContainingSection(text, m.start);
    e := Equation(FormatId("eq_", counter), latex, context, section, inline, eqLabel, Describe(latex, section));
  }

  /** Appending the record of a slot keeps `Built`. */
  lemma {:induction false} BuiltSnoc(text: string, eqs: seq<Equation>, slots: seq<Slot>, s: Slot, e: Equation, next: seq<Slot>)
    requires Built(text, eqs, slots) && e == EquationFor(text, s) && next == slots + [s]
    ensures Built(text, eqs + [e], next)
  {
    forall k | 0 <= k < |eqs| + 1 ensures (eqs + [e])[k] == EquationFor(text, next[k]) {
      if k < |eqs| {
        assert (eqs + [e])[k] == eqs[k] && next[k] == slots[k];
      }
    }
  }

  /** Kept slots of a display pass grow by one slot per match. */
  lemma {:induction false} KeptDisplayStep(before: seq<Found>, ms: seq<Found>, j: nat, n: nat)
    requires j < |ms| && n == |before| + j + 1
    ensures Kept(before + ms[..j + 1], 0, false) == Kept(before + ms[..j], 0, false) + [Slot(ms[j], n, false)]
  {
    assert before + ms[..j + 1] == (before + ms[..j]) + [ms[j]];
    KeptSnoc(before + ms[..j], ms[j], 0, false);
  }

  /** Kept slots of an inline pass grow by the match's slot unless it is
      dropped. */
  lemma {:induction false} KeptInlineStep(display: seq<Slot>, ms: seq<Found>, j: nat, counter: nat, n: nat)
    requires j < |ms| && n == counter + j + 1
    ensures display + Kept(ms[..j + 1], counter, true)
      == display + Kept(ms[..j], counter, true) + (if Dropped(ms[j], true) then [] else [Slot(ms[j], n, true)])
  {
    assert ms[..j + 1] == ms[..j] + [ms[j]];
    KeptSnoc(ms[..j], ms[j], counter, true);
  }

  /** One display pattern's matches appended to the records so far; the
      counter goes on from the number of earlier display matches. */
  method AppendDisplay(text: string, ms: seq<Found>, eqs0: seq<Equation>, ghost before: seq<Found>, counter0: nat)
    returns (eqs: seq<Equation>, counter: nat)
    requires counter0 == |before| && Built(text, eqs0, Kept(before, 0, false))
    ensures counter == |before| + |ms| && Built(text, eqs, Kept(before + ms, 0, false))
  {
    eqs, counter := eqs0, counter0;
    var j := 0;
    assert before + ms[..0] == before;
    while j < |ms|
      invariant j <= |ms|
      invariant counter == |before| + j
      invariant Built(text, eqs, Kept(before + ms[..j], 0, false))
    {
      counter := counter + 1;
      var e := BuildEquation(text, ms[j], counter, false);
      KeptDisplayStep(before, ms, j, counter);
      BuiltSnoc(text, eqs, Kept(before + ms[..j], 0, false), Slot(ms[j], counter, false), e, Kept(before + ms[..j + 1], 0, false));
      eqs := eqs + [e];
      j := j + 1;
    }
    assert ms[..j] == ms;
  }

  /** The inline matches appended after the display records; a match whose
      LaTeX is shorter than three characters takes a counter value but no
      record. */
  method AppendInline(text: string, ms: seq<Found>, eqs0: seq<Equation>, ghost display: seq<Slot>, counter0: nat)
    returns (eqs: seq<Equation>)
    requires Built(text, eqs0, display)
    ensures Built(text, eqs, display + Kept(ms, counter0, true))
  {
    eqs := eqs0;
    var counter := counter0;
    var j := 0;
    assert display + Kept(ms[..0], counter0, true) == display;
    while j < |ms|
      invariant j <= |ms|
      invariant counter == counter0 + j
      invariant Built(text, eqs, display + Kept(ms[..j], counter0, true))
    {
      counter := counter + 1;
      var m := ms[j];
      var latex := Strip(m.group);
      KeptInlineStep(display, ms, j, counter0, counter);
      if |latex| >= 3 {
        var e := BuildEquation(text, m, counter, true);
        BuiltSnoc(text, eqs, display + Kept(ms[..j], counter0, true), Slot(m, counter, true), e,
                  display + Kept(ms[..j + 1], counter0, true));
        eqs := eqs + [e];
      }
      j := j + 1;
    }
    assert ms[..j] == ms;
  }

  /** `extract_equations`: each display pattern in turn, then the inline
      pattern, numbering every match from one shared counter. */
  method ExtractEquations(text: string) returns (eqs: seq<Equation>)
    ensures Built(text, eqs, Slots(text))
  {
    eqs := [];
    var counter := 0;
    var p := 0;
    while p < |DisplayDelimiters|
      invariant p <= |DisplayDelimiters|
      invariant counter == |DisplayUpTo(text, p)|
      invariant Built(text, eqs, Kept(DisplayUpTo(text, p), 0, false))
    {
      var ms := DisplayMatches(text, DisplayDelimiters[p].0, DisplayDelimiters[p].1, 0);
      assert DisplayUpTo(text, p + 1) == DisplayUpTo(text, p) + ms;
      eqs, counter := AppendDisplay(text, ms, eqs, DisplayUpTo(text, p), counter);
      p := p + 1;
    }
    eqs := AppendInline(text, InlineMatches(text, 0), eqs, Kept(AllDisplay(text), 0, false), counter);
  }

  /** The TeX-source pass renumbered to follow `existing` equations: the
      `k`-th gets the id `eq_<existing + k + 1>`. */
  function Renumbered(eqs: seq<Equation>, existing: nat): (r: seq<Equation>)
    ensures |r| == |eqs|
    ensures forall k :: 0 <= k < |r| ==> r[k] == eqs[k].(id := FormatId("eq_", existing + k + 1))
  {
    seq(|eqs|, k requires 0 <= k < |eqs| => eqs[k].(id := FormatId("eq_", existing + k + 1)))
  }
}
