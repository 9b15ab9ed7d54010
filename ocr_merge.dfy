/** How `extract` appends the equations of the arXiv TeX source to those of
    the markdown: the records of the TeX pass are renumbered to follow on. */
module EquationMerge {
  import opened Text
  import opened Models
  import opened OcrPatterns
  import opened OcrEquations

  /** Slots renumbered to follow `n`: the `k`-th takes `n + k + 1`. */
  function Shift(slots: seq<Slot>, n: nat): seq<Slot> {
    seq(|slots|, k requires 0 <= k < |slots| => slots[k].(number := n + k + 1))
  }

  /** Giving a record a new id is building it from its slot with the new
      number. */
  lemma {:induction false} RenumberedRecord(text: string, s: Slot, m: nat)
    ensures EquationFor(text, s).(id := FormatId("eq_", m)) == EquationFor(text, s.(number := m))
  {
  }

  /** Renumbering built records builds them from the shifted slots. */
  lemma {:induction false} RenumberedBuilt(tex: string, eqs: seq<Equation>, slots: seq<Slot>, n: nat)
    requires Built(tex, eqs, slots)
    ensures Built(tex, Renumbered(eqs, n), Shift(slots, n))
  {
    forall k | 0 <= k < |eqs|
      ensures Renumbered(eqs, n)[k] == EquationFor(tex, Shift(slots, n)[k])
    {
      ShiftAt(slots, n, k);
      RenumberedEntry(tex, eqs[k], slots[k], n + k + 1, Renumbered(eqs, n)[k], Shift(slots, n)[k]);
    }
  }

  lemma ShiftAt(slots: seq<Slot>, n: nat, k: nat)
    requires k < |slots|
    ensures |Shift(slots, n)| == |slots| && Shift(slots, n)[k] == slots[k].(number := n + k + 1)
  {
  }

  lemma RenumberedEntry(tex: string, e: Equation, s: Slot, m: nat, r: Equation, t: Slot)
    requires e == EquationFor(tex, s)
    requires r == e.(id := FormatId("eq_", m))
    requires t == s.(number := m)
    ensures r == EquationFor(tex, t)
  {
    RenumberedRecord(tex, s, m);
  }

  /** The renumbering loop of `extract`: the records of the TeX pass get
      the ids `eq_<start>`, `eq_<start + 1>`, … in order. */
  method RenumberFrom(eqs: seq<Equation>, start: nat) returns (r: seq<Equation>)
    requires start >= 1
    ensures r == Renumbered(eqs, start - 1)
  {
    ghost var target := Renumbered(eqs, start - 1);
    r := [];
    for index := 0 to |eqs|
      invariant r == target[..index]
    {
      var e := eqs[index].(id := FormatId("eq_", start + index));
      RenumberedAt(eqs, start, index);
      assert target[..index + 1] == target[..index] + [e];
      r := r + [e];
    }
    assert target[..|eqs|] == target;
  }

  /** The `k`-th record renumbered from `start` has the id `eq_<start + k>`. */
  lemma RenumberedAt(eqs: seq<Equation>, start: nat, k: nat)
    requires start >= 1 && k < |eqs|
    ensures Renumbered(eqs, start - 1)[k] == eqs[k].(id := FormatId("eq_", start + k))
  {
    assert (start - 1) + k + 1 == start + k;
  }

  /** `r` holds the records of the markdown slots `ms` and then, when there
      is a TeX source, the records of its slots `ts`. */
  predicate Joined(markdown: string, ms: seq<Slot>, tex: Option<string>, ts: seq<Slot>, r: seq<Equation>) {
    |ms| <= |r| && Built(markdown, r[..|ms|], ms)
    && if tex.Some? then Built(tex.value, r[|ms|..], ts) else |r| == |ms|
  }

  /** The slots of the TeX pass renumbered to follow `n`; none without a
      TeX source. */
  function TexSlots(tex: Option<string>, n: nat): seq<Slot> {
    if tex.Some? then Shift(Slots(tex.value), n) else []
  }

  /** The markdown records followed by the TeX records renumbered to
      follow `n`. */
  predicate MergedInto(markdown: string, tex: Option<string>, n: nat, r: seq<Equation>) {
    Joined(markdown, Slots(markdown), tex, TexSlots(tex, n), r)
  }

  /** The final value of the counter of `extract_equations` over `text`:
      one step per match of both passes, dropped inline matches included. */
  function CounterEnd(text: string): nat {
    |AllDisplay(text)| + |InlineMatches(text, 0)|
  }

  /** The merge as `extract` writes it: the TeX records are numbered on from
      the number of markdown records kept. */
  predicate MergedAsWritten(markdown: string, tex: Option<string>, r: seq<Equation>) {
    MergedInto(markdown, tex, |Slots(markdown)|, r)
  }

  /** The markdown of the counterexample: a dropped inline equation `a`
      followed by a kept one, `bcd`, which takes the counter value 2. */
  const DroppedFirst: string := "$a$ $bcd$"

  lemma {:induction false} DroppedFirstChars()
    ensures forall j :: 0 <= j < |DroppedFirst| ==> DroppedFirst[j] != '\\'
    ensures forall j :: 0 <= j < |DroppedFirst| - 1 ==> DroppedFirst[j] != '$' || DroppedFirst[j + 1] != '$'
  {
  }

  /** A two-character opener starting with a backslash, or `$$`, does not
      occur in the counterexample. */
  lemma {:induction false} DroppedFirstNoOpener(t: string)
    requires |t| == 2 && (t[0] == '\\' || t[0] == t[1] == '$')
    ensures IndexOf(DroppedFirst, t, 0) == None
  {
    DroppedFirstChars();
    forall j | 0 <= j ensures !MatchAt(DroppedFirst, t, j) {
      if j + 2 <= |DroppedFirst| {
        assert DroppedFirst[j..j + 2][0] == DroppedFirst[j] && DroppedFirst[j..j + 2][1] == DroppedFirst[j + 1];
      }
    }
  }

  /** The counterexample has no display match. */
  lemma {:induction false} DroppedFirstDisplay()
    ensures AllDisplay(DroppedFirst) == []
  {
    DroppedFirstNoOpener("$$");
    DroppedFirstNoOpener("\\[");
  }

  /** The counterexample has two inline matches, `a` and `bcd`. */
  lemma {:induction false} DroppedFirstInline()
    ensures InlineMatches(DroppedFirst, 0) == [Found(0, 3, "a"), Found(4, 9, "bcd")]
  {
    assert DroppedFirst[1..2] == "a";
    assert InlineCloser(DroppedFirst, 2) == Some(2);
    assert InlineNext(DroppedFirst, 0) == Some(Found(0, 3, "a"));
    assert InlineCloser(DroppedFirst, 6) == Some(8);
    assert DroppedFirst[5..8] == "bcd";
    assert !InlineOpensAt(DroppedFirst, 3);
    assert InlineNext(DroppedFirst, 3) == Some(Found(4, 9, "bcd"));
    assert InlineNext(DroppedFirst, 9) == None;
  }

  /** A dropped match followed by a kept one: only the second is kept, with
      the second counter value. */
  lemma {:induction false} KeptDroppedThenKept(m1: Found, m2: Found, counter: nat)
    requires Dropped(m1, true) && !Dropped(m2, true)
    ensures Kept([m1, m2], counter, true) == [Slot(m2, counter + 2, true)]
  {
    assert [m1, m2][1..] == [m2];
    assert [m2][1..] == [];
    assert Kept([m2], counter + 1, true) == [Slot(m2, counter + 2, true)];
  }

  /** Of the two inline matches, `a` is dropped and `bcd` kept. */
  lemma {:induction false} DroppedThenKept()
    ensures Kept([Found(0, 3, "a"), Found(4, 9, "bcd")], 0, true) == [Slot(Found(4, 9, "bcd"), 2, true)]
  {
    assert Strip("a") == "a" && Strip("bcd") == "bcd";
    KeptDroppedThenKept(Found(0, 3, "a"), Found(4, 9, "bcd"), 0);
  }

  /** The counterexample keeps one slot, `bcd`, with the counter value 2. */
  lemma {:induction false} DroppedFirstSlots()
    ensures Slots(DroppedFirst) == [Slot(Found(4, 9, "bcd"), 2, true)]
  {
    DroppedFirstDisplay();
    DroppedFirstInline();
    DroppedThenKept();
    assert Kept([], 0, false) == [];
  }

  /** As written, the merge gives the kept markdown equation and the first
      TeX equation the same id, `eq_002`, for every TeX source with an
      equation. */
  lemma {:induction false} MergedAsWrittenCollides(tex: string, r: seq<Equation>)
    requires Slots(tex) != [] && MergedAsWritten(DroppedFirst, Some(tex), r)
    ensures |r| >= 2 && r[0].id == r[1].id
  {
    DroppedFirstSlots();
    JoinedHeads(DroppedFirst, [Slot(Found(4, 9, "bcd"), 2, true)], tex, Shift(Slots(tex), 1), r);
  }

  /** The first record of each part of a joined list carries the id of its
      slot. */
  lemma {:induction false} JoinedHeads(markdown: string, ms: seq<Slot>, tex: string, ts: seq<Slot>, r: seq<Equation>)
    requires Joined(markdown, ms, Some(tex), ts, r) && |ms| == 1 && ts != []
    ensures |r| >= 2 && r[0].id == FormatId("eq_", ms[0].number) && r[1].id == FormatId("eq_", ts[0].number)
  {
    BuiltFields(markdown, r[..1], ms);
    BuiltFields(tex, r[1..], ts);
    assert r[0] == r[..1][0] && r[1] == r[1..][0];
  }

  /** The merge with the TeX records numbered on from the final counter
      value of the markdown pass. */
  predicate Merged(markdown: string, tex: Option<string>, r: seq<Equation>) {
    MergedInto(markdown, tex, CounterEnd(markdown), r)
  }

  /** A joined list whose numbers rise strictly carries no id twice. */
  lemma {:induction false} JoinedIdsDistinct(markdown: string, ms: seq<Slot>, tex: Option<string>, ts: seq<Slot>,
                                             r: seq<Equation>)
    requires Joined(markdown, ms, tex, ts, r)
    requires forall k, l :: 0 <= k < l < |ms| + |ts| ==> (ms + ts)[k].number < (ms + ts)[l].number
    ensures forall k, l :: 0 <= k < l < |r| ==> r[k].id != r[l].id
  {
    var m := |ms|;
    BuiltFields(markdown, r[..m], ms);
    if tex.Some? {
      BuiltFields(tex.value, r[m..], ts);
    }
    forall k | 0 <= k < |r| ensures k < |ms| + |ts| && r[k].id == FormatId("eq_", (ms + ts)[k].number) {
      if k < m {
        assert r[k] == r[..m][k];
      } else {
        assert r[k] == r[m..][k - m];
      }
    }
    forall k, l | 0 <= k < l < |r| ensures r[k].id != r[l].id {
      if r[k].id == r[l].id {
        FormatIdInjective("eq_", (ms + ts)[k].number, (ms + ts)[l].number);
      }
    }
  }

  /** The numbers of the merged slots rise strictly. */
  lemma {:induction false} MergedSlotsIncreasing(markdown: string, tex: Option<string>)
    ensures forall k, l :: 0 <= k < l < |Slots(markdown)| + |TexSlots(tex, CounterEnd(markdown))| ==>
      (Slots(markdown) + TexSlots(tex, CounterEnd(markdown)))[k].number
      < (Slots(markdown) + TexSlots(tex, CounterEnd(markdown)))[l].number
  {
    var d, ims := AllDisplay(markdown), InlineMatches(markdown, 0);
    PassesIncreasing(d, ims);
    PassesBounded(d, ims);
    RisingThenShifted(Passes(d, ims), TexSlots(tex, CounterEnd(markdown)), CounterEnd(markdown));
  }

  /** Rising numbers at most `n`, then the numbers `n + 1`, `n + 2`, …: the
      numbers rise. */
  lemma {:induction false} RisingThenShifted(ms: seq<Slot>, ts: seq<Slot>, n: nat)
    requires forall k, l :: 0 <= k < l < |ms| ==> ms[k].number < ms[l].number
    requires forall k :: 0 <= k < |ms| ==> ms[k].number <= n
    requires forall k :: 0 <= k < |ts| ==> ts[k].number == n + k + 1
    ensures forall k, l :: 0 <= k < l < |ms| + |ts| ==> (ms + ts)[k].number < (ms + ts)[l].number
  {
    var all := ms + ts;
    forall k, l | 0 <= k < l < |all| ensures all[k].number < all[l].number {
      if l < |ms| {
        assert all[k] == ms[k] && all[l] == ms[l];
      } else if k < |ms| {
        assert all[k] == ms[k] && all[l] == ts[l - |ms|];
      } else {
        assert all[k] == ts[k - |ms|] && all[l] == ts[l - |ms|];
      }
    }
  }

  /** The merged list carries no id twice. */
  lemma {:induction false} MergedIdsDistinct(markdown: string, tex: Option<string>, r: seq<Equation>)
    requires Merged(markdown, tex, r)
    ensures forall k, l :: 0 <= k < l < |r| ==> r[k].id != r[l].id
  {
    MergedSlotsIncreasing(markdown, tex);
    JoinedIdsDistinct(markdown, Slots(markdown), tex, TexSlots(tex, CounterEnd(markdown)), r);
  }

  /** Records of the two parts, one after the other, are joined. */
  lemma {:induction false} JoinParts(markdown: string, ms: seq<Slot>, tex: Option<string>, ts: seq<Slot>,
                                     a: seq<Equation>, b: seq<Equation>)
    requires Built(markdown, a, ms)
    requires if tex.Some? then Built(tex.value, b, ts) else b == []
    ensures Joined(markdown, ms, tex, ts, a + b)
  {
    assert (a + b)[..|ms|] == a && (a + b)[|ms|..] == b;
  }

  /** The records of a TeX source's pass renumbered to follow `n`. */
  method TexEquations(tex: string, n: nat) returns (texEquations: seq<Equation>)
    ensures Built(tex, texEquations, Shift(Slots(tex), n))
  {
    texEquations := ExtractEquations(tex);
    if texEquations != [] {
      RenumberedBuilt(tex, texEquations, Slots(tex), n);
      texEquations := RenumberFrom(texEquations, n + 1);
    } else {
      assert Shift(Slots(tex), n) == [];
    }
  }

  /** The records of the TeX source's pass, renumbered to follow the
      markdown pass's final counter; none without a TeX source. */
  method TexPart(markdown: string, tex: Option<string>) returns (texEquations: seq<Equation>)
    ensures if tex.Some? then Built(tex.value, texEquations, TexSlots(tex, CounterEnd(markdown)))
            else texEquations == []
  {
    texEquations := [];
    if tex.Some? {
      texEquations := TexEquations(tex.value, CounterEnd(markdown));
    }
  }

  /** The records of `slots`, one for one. */
  function BuildAll(text: string, slots: seq<Slot>): (r: seq<Equation>)
    ensures Built(text, r, slots)
  {
    seq(|slots|, k requires 0 <= k < |slots| => EquationFor(text, slots[k]))
  }

  /** The merged equations as a value: the markdown records, then, with a
      TeX source, its records numbered on from the markdown pass's final
      counter. */
  function MergedEquations(markdown: string, tex: Option<string>): (r: seq<Equation>)
    ensures Merged(markdown, tex, r)
  {
    var ms, ts := Slots(markdown), TexSlots(tex, CounterEnd(markdown));
    var texPart := if tex.Some? then BuildAll(tex.value, ts) else [];
    JoinParts(markdown, ms, tex, ts, BuildAll(markdown, ms), texPart);
    BuildAll(markdown, ms) + texPart
  }

  /** The slots determine the records. */
  lemma {:induction false} BuiltUnique(text: string, eqs: seq<Equation>, slots: seq<Slot>)
    requires Built(text, eqs, slots)
    ensures eqs == BuildAll(text, slots)
  {
    var r := BuildAll(text, slots);
    assert forall k :: 0 <= k < |eqs| ==> eqs[k] == r[k];
  }

  /** The markdown and the TeX source determine the merged equations. */
  lemma {:induction false} MergedUnique(markdown: string, tex: Option<string>, r: seq<Equation>)
    requires Merged(markdown, tex, r)
    ensures r == MergedEquations(markdown, tex)
  {
    var ms, ts := Slots(markdown), TexSlots(tex, CounterEnd(markdown));
    var head, tail := r[..|ms|], r[|ms|..];
    assert r == head + tail;
    BuiltUnique(markdown, head, ms);
    if tex.Some? {
      BuiltUnique(tex.value, tail, ts);
    } else {
      assert tail == [];
    }
  }

  /** The markdown equations followed by those of the TeX source, numbered
      on from the markdown pass's final counter. */
  method AllEquations(markdown: string, tex: Option<string>) returns (equations: seq<Equation>)
    ensures Merged(markdown, tex, equations)
    ensures equations == MergedEquations(markdown, tex)
  {
    equations := ExtractEquations(markdown);
    var texEquations := TexPart(markdown, tex);
    JoinParts(markdown, Slots(markdown), tex, TexSlots(tex, CounterEnd(markdown)), equations, texEquations);
    equations := equations + texEquations;
    MergedUnique(markdown, tex, equations);
  }
}
