/** The units a text is cut into: characters, words or sentences, each found by a scan from
    where the last one ended. */
module TextUnits {
  import opened Options
  import opened RingIndex
  import opened SpaceScan

  datatype Mode = Whole | Char | Word | Sentence | Token

  /** What the caller asks for; `delimiters` is empty when the default ones apply. */
  datatype Chunker = Chunker(mode: Mode, maxUnits: nat, overlapUnits: nat, delimiters: seq<Byte>,
                             keepEmpty: bool, documentId: nat, groupId: nat)

  datatype Unit = Unit(begin: nat, end: nat)

  const DEFAULT_DELIMITERS: seq<Byte> := ['.' as nat, '!' as nat, '?' as nat, '\n' as nat]

  /** The width a lead byte announces, cut to one byte when the text ends before. */
  function Utf8Step(text: seq<Byte>, pos: nat): (next: nat)
    ensures pos < |text| ==> pos < next <= |text|
    ensures pos >= |text| ==> next == pos
  {
    if |text| <= pos then pos else
    var c := text[pos];
    if BitAnd(c, 0x80) == 0 then pos + 1 else
    var width := if BitAnd(c, 0xE0) == 0xC0 then 2
                 else if BitAnd(c, 0xF0) == 0xE0 then 3
                 else if BitAnd(c, 0xF8) == 0xF0 then 4
                 else 1;
    if width <= |text| - pos then pos + width else pos + 1
  }

  predicate IsSentenceDelimiter(desc: Chunker, c: Byte) {
    if desc.delimiters != [] then c in desc.delimiters else c in DEFAULT_DELIMITERS
  }

  // ----- what the units are -----

  /** The first index from `pos` on that is not white space, or the length. */
  ghost function SkipSpace(text: seq<Byte>, pos: nat): (r: nat)
    requires pos <= |text|
    ensures pos <= r <= |text| && (r < |text| ==> !IsSpace(text[r]))
    ensures forall i :: pos <= i < r ==> IsSpace(text[i])
    decreases |text| - pos
  {
    if pos == |text| || !IsSpace(text[pos]) then pos else SkipSpace(text, pos + 1)
  }

  /** The first index from `pos` on that is white space, or the length. */
  ghost function WordEnd(text: seq<Byte>, pos: nat): (r: nat)
    requires pos <= |text|
    ensures pos <= r <= |text| && (r < |text| ==> IsSpace(text[r]))
    ensures forall i :: pos <= i < r ==> !IsSpace(text[i])
    decreases |text| - pos
  {
    if pos == |text| || IsSpace(text[pos]) then pos else WordEnd(text, pos + 1)
  }

  /** Past the first delimiter from `pos` on, character by character, or the length. */
  ghost function SentenceEnd(desc: Chunker, text: seq<Byte>, pos: nat): (r: nat)
    requires pos <= |text|
    ensures pos <= r <= |text| && (pos < |text| ==> pos < r)
    decreases |text| - pos
  {
    if pos == |text| then pos
    else if IsSentenceDelimiter(desc, text[pos]) then Utf8Step(text, pos)
    else SentenceEnd(desc, text, Utf8Step(text, pos))
  }

  /** The next unit at or after `pos`. */
  ghost function NextUnit(desc: Chunker, text: seq<Byte>, pos: nat): (u: Option<Unit>)
    requires pos <= |text|
    ensures u.Some? ==> pos <= u.value.begin < u.value.end <= |text|
  {
    match desc.mode
    case Char => if pos == |text| then None else Some(Unit(pos, Utf8Step(text, pos)))
    case Word =>
      var begin := SkipSpace(text, pos);
      if begin == |text| then None else Some(Unit(begin, WordEnd(text, begin)))
    case Sentence =>
      var begin := SkipSpace(text, pos);
      if begin == |text| then None else Some(Unit(begin, SentenceEnd(desc, text, begin)))
    case _ => None
  }

  /** All units from `pos` on. */
  ghost function Units(desc: Chunker, text: seq<Byte>, pos: nat): (units: seq<Unit>)
    requires pos <= |text|
    ensures forall u :: u in units ==> pos <= u.begin < u.end <= |text|
    decreases |text| - pos
  {
    var u := NextUnit(desc, text, pos);
    if u.None? then [] else [u.value] + Units(desc, text, u.value.end)
  }

  lemma {:induction false} SkipSpaceIs(text: seq<Byte>, pos: nat, r: nat)
    requires pos <= r <= |text| && (r < |text| ==> !IsSpace(text[r]))
    requires forall i :: pos <= i < r ==> IsSpace(text[i])
    ensures SkipSpace(text, pos) == r
    decreases r - pos
  {
    if pos < r {
      SkipSpaceIs(text, pos + 1, r);
    }
  }

  lemma {:induction false} WordEndIs(text: seq<Byte>, pos: nat, r: nat)
    requires pos <= r <= |text| && (r < |text| ==> IsSpace(text[r]))
    requires forall i :: pos <= i < r ==> !IsSpace(text[i])
    ensures WordEnd(text, pos) == r
    decreases r - pos
  {
    if pos < r {
      WordEndIs(text, pos + 1, r);
    }
  }

  /** A word unit is the next maximal run of bytes that are not white space. */
  lemma WordUnitMeaning(desc: Chunker, text: seq<Byte>, pos: nat)
    requires desc.mode.Word? && pos <= |text|
    ensures var u := NextUnit(desc, text, pos);
            && (u.None? <==> forall i :: pos <= i < |text| ==> IsSpace(text[i]))
            && (u.Some? ==>
                  && (forall i :: pos <= i < u.value.begin ==> IsSpace(text[i]))
                  && (forall i :: u.value.begin <= i < u.value.end ==> !IsSpace(text[i]))
                  && (u.value.end < |text| ==> IsSpace(text[u.value.end])))
  {
    var begin := SkipSpace(text, pos);
    if begin < |text| {
      assert !IsSpace(text[begin]);
    }
  }

  /** Starting again at the beginning of a unit finds the same unit. */
  lemma Restart(desc: Chunker, text: seq<Byte>, pos: nat)
    requires pos <= |text| && NextUnit(desc, text, pos).Some?
    ensures NextUnit(desc, text, NextUnit(desc, text, pos).value.begin) == NextUnit(desc, text, pos)
    ensures Units(desc, text, NextUnit(desc, text, pos).value.begin) == Units(desc, text, pos)
  {
    var begin := NextUnit(desc, text, pos).value.begin;
    if !desc.mode.Char? {
      SkipSpaceIs(text, begin, begin);
    }
  }

  /** From the begin or the end of the `k`-th unit the scan goes on with the units from there. */
  lemma {:induction false} UnitsFrom(desc: Chunker, text: seq<Byte>, pos: nat, k: nat)
    requires pos <= |text| && k < |Units(desc, text, pos)|
    ensures var units := Units(desc, text, pos);
            && pos <= units[k].begin < units[k].end <= |text|
            && Units(desc, text, units[k].begin) == units[k..]
            && Units(desc, text, units[k].end) == units[k + 1..]
            && NextUnit(desc, text, units[k].begin) == Some(units[k])
    decreases k
  {
    hide NextUnit;
    var units := Units(desc, text, pos);
    var rest := Units(desc, text, units[0].end);
    assert units == [units[0]] + rest;
    if k == 0 {
      Restart(desc, text, pos);
    } else {
      UnitsFrom(desc, text, units[0].end, k - 1);
      assert units[k] == rest[k - 1] && units[k..] == rest[k - 1..] && units[k + 1..] == rest[k..];
    }
  }

  /** Units follow one another. */
  lemma UnitsOrdered(desc: Chunker, text: seq<Byte>, j: nat, k: nat)
    requires j < k < |Units(desc, text, 0)|
    ensures Units(desc, text, 0)[j].end <= Units(desc, text, 0)[k].begin
  {
    var units := Units(desc, text, 0);
    UnitsFrom(desc, text, 0, j);
    var rest := Units(desc, text, units[j].end);
    UnitsFrom(desc, text, units[j].end, k - j - 1);
    assert rest[k - j - 1] == units[k];
  }

  /** Something is left after the last unit. */
  ghost predicate HasTail(desc: Chunker, text: seq<Byte>) {
    var units := Units(desc, text, 0);
    units != [] && units[|units| - 1].end < |text|
  }

  /** After words, what is left is trailing white space; characters leave nothing. */
  lemma TailMeaning(desc: Chunker, text: seq<Byte>)
    ensures desc.mode.Word? ==>
              (HasTail(desc, text) <==> Units(desc, text, 0) != [] && IsSpace(text[|text| - 1]))
    ensures desc.mode.Char? ==> !HasTail(desc, text)
  {
    var units := Units(desc, text, 0);
    if units != [] {
      var last := units[|units| - 1];
      UnitsFrom(desc, text, 0, |units| - 1);
      assert Units(desc, text, last.end) == [];
      assert NextUnit(desc, text, last.end).None?;
    }
  }

  // ----- characters and sentences in terms of the bytes -----

  /** The width that a lead byte announces. */
  function LeadWidth(c: Byte): (width: nat)
    ensures 1 <= width <= 4
  {
    if 0xC0 <= c < 0xE0 then 2 else if 0xE0 <= c < 0xF0 then 3 else if 0xF0 <= c < 0xF8 then 4 else 1
  }

  /** A step takes the announced width if the text has it, and a single byte otherwise. */
  lemma Utf8StepMeaning(text: seq<Byte>, pos: nat)
    requires pos < |text|
    ensures var width := LeadWidth(text[pos]);
            Utf8Step(text, pos) == if pos + width <= |text| then pos + width else pos + 1
  {
    hide BitAnd;
    var c := text[pos];
    TopBitsOf(c, 7);
    TopBitsOf(c, 5);
    TopBitsOf(c, 4);
    TopBitsOf(c, 3);
    MaskConstants();
  }

  lemma MaskConstants()
    ensures Pow2(7) == 0x80 && Pow2(5) == 0x20 && Pow2(4) == 0x10 && Pow2(3) == 0x08
  {
  }

  /** Masking the bits of a byte from bit `k` up clears those below. */
  lemma TopBitsOf(c: Byte, k: nat)
    requires k <= 8
    ensures 0 < Pow2(k) <= 256 && BitAnd(c, 256 - Pow2(k)) == c - c % Pow2(k)
  {
    hide BitAnd, Pow2;
    PowersOfByte(k);
    AndSplit(c % Pow2(k), c / Pow2(k), 0, Pow2(8 - k) - 1, k);
    AndZero(c % Pow2(k), 0);
    AndOnes(c / Pow2(k), 8 - k);
    QuotientParts(c, Pow2(k));
  }

  lemma QuotientParts(c: nat, p: nat)
    requires 0 < p
    ensures c == c % p + p * (c / p)
  {
  }

  lemma PowersOfByte(k: nat)
    requires k <= 8
    ensures Pow2(k) * Pow2(8 - k) == 256 && 256 / Pow2(k) == Pow2(8 - k)
    ensures Pow2(k) * (Pow2(8 - k) - 1) == 256 - Pow2(k)
    ensures forall c: nat :: c < 256 ==> c / Pow2(k) < Pow2(8 - k)
  {
    assert k == 0 || k == 1 || k == 2 || k == 3 || k == 4 || k == 5 || k == 6 || k == 7 || k == 8;
  }

  lemma AndOnes(a: nat, k: nat)
    requires a < Pow2(k)
    ensures BitAnd(a, Pow2(k) - 1) == a
  {
    MaskIsSlot(a, k);
  }

  /** Character units tile the text: each begins where the one before ended, the first at the
      start and the last at the end. */
  lemma {:induction false} CharUnitsTile(desc: Chunker, text: seq<Byte>, pos: nat)
    requires desc.mode.Char? && pos <= |text|
    ensures var units := Units(desc, text, pos);
            && (units == [] <==> pos == |text|)
            && (units != [] ==> units[0].begin == pos && units[|units| - 1].end == |text|)
            && (forall k :: 0 <= k < |units| - 1 ==> units[k].end == units[k + 1].begin)
            && (forall k :: 0 <= k < |units| ==> units[k].end == Utf8Step(text, units[k].begin))
    decreases |text| - pos
  {
    hide Utf8Step;
    if pos < |text| {
      var rest := Units(desc, text, Utf8Step(text, pos));
      CharUnitsTile(desc, text, Utf8Step(text, pos));
      assert Units(desc, text, pos) == [Unit(pos, Utf8Step(text, pos))] + rest;
    }
  }

  /** `to` is a character boundary as seen from `from`: steps of whole characters lead there. */
  ghost predicate Boundary(text: seq<Byte>, from: nat, to: nat)
    requires from <= |text|
    decreases |text| - from
  {
    from == to || (from < |text| && Boundary(text, Utf8Step(text, from), to))
  }

  lemma {:induction false} BoundaryAhead(text: seq<Byte>, from: nat, to: nat)
    requires from <= |text| && Boundary(text, from, to)
    ensures from <= to <= |text|
    decreases |text| - from
  {
    hide Utf8Step;
    if from != to {
      BoundaryAhead(text, Utf8Step(text, from), to);
    }
  }

  lemma {:induction false} BoundaryTrans(text: seq<Byte>, a: nat, b: nat, c: nat)
    requires a <= |text| && b <= |text| && Boundary(text, a, b) && Boundary(text, b, c)
    ensures Boundary(text, a, c)
    decreases |text| - a
  {
    hide Utf8Step;
    if a != b {
      BoundaryTrans(text, Utf8Step(text, a), b, c);
    }
  }

  /** Skipping white space goes from boundary to boundary, one byte at a time. */
  lemma {:induction false} SkipIsBoundary(text: seq<Byte>, pos: nat)
    requires pos <= |text|
    ensures Boundary(text, pos, SkipSpace(text, pos))
    decreases |text| - pos
  {
    if pos < |text| && IsSpace(text[pos]) {
      Utf8StepMeaning(text, pos);
      SkipIsBoundary(text, pos + 1);
    }
  }

  /** A boundary behind the white space is a boundary seen from there. */
  lemma {:induction false} BoundaryAfterSkip(text: seq<Byte>, pos: nat, q: nat)
    requires pos <= |text| && Boundary(text, pos, q) && SkipSpace(text, pos) <= q
    ensures Boundary(text, SkipSpace(text, pos), q)
    decreases |text| - pos
  {
    if pos < |text| && IsSpace(text[pos]) {
      Utf8StepMeaning(text, pos);
      BoundaryAfterSkip(text, pos + 1, q);
    }
  }

  /** A sentence is a run of whole characters up to and with the first delimiter, or to the end
      of the text. */
  lemma {:induction false} SentenceEndMeaning(desc: Chunker, text: seq<Byte>, pos: nat)
    requires pos < |text|
    ensures var end := SentenceEnd(desc, text, pos);
            && Boundary(text, pos, end)
            && (forall q :: pos <= q < end && Boundary(text, pos, q) && IsSentenceDelimiter(desc, text[q]) ==>
                  end == Utf8Step(text, q))
            && (end < |text| ==>
                  exists q :: pos <= q < end && Boundary(text, pos, q) && IsSentenceDelimiter(desc, text[q])
                              && end == Utf8Step(text, q))
    decreases |text| - pos
  {
    hide Utf8Step;
    var next, end := Utf8Step(text, pos), SentenceEnd(desc, text, pos);
    if IsSentenceDelimiter(desc, text[pos]) {
      assert Boundary(text, next, next);
      forall q | pos <= q < end && Boundary(text, pos, q) && IsSentenceDelimiter(desc, text[q])
        ensures end == Utf8Step(text, q)
      {
        if q != pos {
          BoundaryAhead(text, next, q);
        }
      }
    } else if next == |text| {
      assert Boundary(text, next, next);
      forall q | pos <= q < end && Boundary(text, pos, q) ensures q == pos {
        if q != pos {
          BoundaryAhead(text, next, q);
        }
      }
    } else {
      SentenceEndMeaning(desc, text, next);
      forall q | pos <= q < end && Boundary(text, pos, q) && IsSentenceDelimiter(desc, text[q])
        ensures end == Utf8Step(text, q)
      {
        assert q != pos;
        BoundaryAhead(text, next, q);
      }
    }
  }

  /** A sentence unit begins at the next byte that is not white space. */
  lemma SentenceUnitMeaning(desc: Chunker, text: seq<Byte>, pos: nat)
    requires desc.mode.Sentence? && pos <= |text|
    ensures var u := NextUnit(desc, text, pos);
            && (u.None? <==> forall i :: pos <= i < |text| ==> IsSpace(text[i]))
            && (u.Some? ==>
                  && (forall i :: pos <= i < u.value.begin ==> IsSpace(text[i]))
                  && !IsSpace(text[u.value.begin])
                  && Boundary(text, pos, u.value.begin) && Boundary(text, u.value.begin, u.value.end)
                  && (forall q ::
                        u.value.begin <= q < u.value.end && Boundary(text, u.value.begin, q)
                        && IsSentenceDelimiter(desc, text[q]) ==>
                          u.value.end == Utf8Step(text, q))
                  && (u.value.end < |text| ==>
                        exists q :: u.value.begin <= q < u.value.end && Boundary(text, u.value.begin, q)
                                    && IsSentenceDelimiter(desc, text[q]) && u.value.end == Utf8Step(text, q)))
  {
    hide Utf8Step;
    var begin := SkipSpace(text, pos);
    SkipIsBoundary(text, pos);
    if begin < |text| {
      assert !IsSpace(text[begin]);
      SentenceEndMeaning(desc, text, begin);
    }
  }

  /** A delimiter that only white space follows, and some does. */
  ghost predicate ClosesText(desc: Chunker, text: seq<Byte>, from: nat, q: nat)
    requires from <= |text|
  {
    && q < |text| && Boundary(text, from, q) && IsSentenceDelimiter(desc, text[q])
    && Utf8Step(text, q) < |text|
    && (forall i :: Utf8Step(text, q) <= i < |text| ==> IsSpace(text[i]))
  }

  ghost predicate EndsEarly(units: seq<Unit>, length: nat) {
    units != [] && units[|units| - 1].end < length
  }

  /** If the last sentence ends before the text does, a delimiter closes the text. */
  lemma {:induction false} EarlyEndIsClosed(desc: Chunker, text: seq<Byte>, pos: nat) returns (q: nat)
    requires desc.mode.Sentence? && pos <= |text| && EndsEarly(Units(desc, text, pos), |text|)
    ensures ClosesText(desc, text, pos, q)
    decreases |text| - pos
  {
    hide Utf8Step;
    var u := NextUnit(desc, text, pos).value;
    var rest := Units(desc, text, u.end);
    SentenceUnitMeaning(desc, text, pos);
    assert Units(desc, text, pos) == [u] + rest;
    BoundaryTrans(text, pos, u.begin, u.end);
    if rest == [] {
      SentenceUnitMeaning(desc, text, u.end);
      q :| u.begin <= q < u.end && Boundary(text, u.begin, q) && IsSentenceDelimiter(desc, text[q])
           && u.end == Utf8Step(text, q);
      BoundaryTrans(text, pos, u.begin, q);
    } else {
      q := EarlyEndIsClosed(desc, text, u.end);
      BoundaryTrans(text, pos, u.end, q);
    }
  }

  /** If a delimiter closes the text and there is a sentence, the last one ends early. */
  lemma {:induction false} ClosedEndsEarly(desc: Chunker, text: seq<Byte>, pos: nat, q: nat)
    requires desc.mode.Sentence? && pos <= |text| && ClosesText(desc, text, pos, q)
    requires Units(desc, text, pos) != []
    ensures EndsEarly(Units(desc, text, pos), |text|)
    decreases |text| - pos
  {
    hide Utf8Step;
    var u := NextUnit(desc, text, pos).value;
    var rest := Units(desc, text, u.end);
    SentenceUnitMeaning(desc, text, pos);
    assert Units(desc, text, pos) == [u] + rest;
    BoundaryAhead(text, pos, q);
    assert !IsSpace(text[u.begin]);
    assert q < u.begin ==> IsSpace(text[q]);
    if q < u.begin {
      Utf8StepMeaning(text, q);
    } else {
      BoundaryAfterSkip(text, pos, q);
      if q < u.end {
        assert u.end == Utf8Step(text, q);
      } else if rest != [] {
        BoundaryBehind(text, u.begin, u.end, q);
        ClosedEndsEarly(desc, text, u.end, q);
      }
    }
  }

  /** Of two boundaries, the later one is a boundary seen from the earlier. */
  lemma {:induction false} BoundaryBehind(text: seq<Byte>, from: nat, a: nat, b: nat)
    requires from <= |text| && Boundary(text, from, a) && Boundary(text, from, b) && a <= b && a <= |text|
    ensures Boundary(text, a, b)
    decreases |text| - from
  {
    hide Utf8Step;
    if from != a {
      BoundaryAhead(text, Utf8Step(text, from), a);
      if from != b {
        BoundaryBehind(text, Utf8Step(text, from), a, b);
      }
    }
  }

  /** After sentences something is left exactly if the text is not all white space and a delimiter
      at a character boundary is followed by white space only, and by some. */
  lemma SentenceTailMeaning(desc: Chunker, text: seq<Byte>)
    requires desc.mode.Sentence?
    ensures HasTail(desc, text) <==>
              (exists i :: 0 <= i < |text| && !IsSpace(text[i])) && (exists q: nat :: ClosesText(desc, text, 0, q))
  {
    hide ClosesText, Units;
    var units := Units(desc, text, 0);
    SomeSentence(desc, text);
    if HasTail(desc, text) {
      var q := EarlyEndIsClosed(desc, text, 0);
    }
    forall q: nat | ClosesText(desc, text, 0, q) && units != [] ensures HasTail(desc, text) {
      ClosedEndsEarly(desc, text, 0, q);
    }
  }

  lemma SomeSentence(desc: Chunker, text: seq<Byte>)
    requires desc.mode.Sentence?
    ensures Units(desc, text, 0) != [] <==> exists i :: 0 <= i < |text| && !IsSpace(text[i])
  {
    SentenceUnitMeaning(desc, text, 0);
  }

  // ----- the scans -----

  /** Whether a byte is one of the caller's delimiters, or of the default ones if there are none. */
  method FindDelimiter(desc: Chunker, c: Byte) returns (found: bool)
    ensures found <==> IsSentenceDelimiter(desc, c)
    ensures desc.delimiters != [] ==>
              (found <==> exists i :: 0 <= i < |desc.delimiters| && desc.delimiters[i] == c)
    ensures desc.delimiters == [] ==> (found <==> c == 0x2E || c == 0x21 || c == 0x3F || c == 0x0A)
  {
    var delimiters := if desc.delimiters != [] then desc.delimiters else DEFAULT_DELIMITERS;
    for i := 0 to |delimiters|
      invariant c !in delimiters[..i]
    {
      if delimiters[i] == c {
        return true;
      }
    }
    found := false;
    assert c !in delimiters;
  }

  method NextCharUnit(text: seq<Byte>, pos: nat) returns (found: bool, next: nat, unit: Unit)
    requires pos <= |text|
    ensures forall desc: Chunker :: desc.mode.Char? ==>
              NextUnit(desc, text, pos) == if found then Some(unit) else None
    ensures next == if found then unit.end else |text|
  {
    if |text| <= pos {
      return false, pos, Unit(pos, pos);
    }
    unit := Unit(pos, Utf8Step(text, pos));
    found, next := true, unit.end;
  }

  method NextWordUnit(text: seq<Byte>, pos: nat) returns (found: bool, next: nat, unit: Unit)
    requires pos <= |text|
    ensures forall desc: Chunker :: desc.mode.Word? ==>
              NextUnit(desc, text, pos) == if found then Some(unit) else None
    ensures next == if found then unit.end else |text|
  {
    var p := pos;
    while p < |text| && CanBeSpace(text[p]) && IsSpace(text[p])
      invariant pos <= p <= |text|
      invariant forall i :: pos <= i < p ==> IsSpace(text[i])
    {
      p := p + 1;
    }
    SkipSpaceIs(text, pos, p);
    if |text| <= p {
      return false, p, Unit(p, p);
    }
    var begin := p;
    while p < |text|
      invariant begin <= p <= |text|
      invariant forall i :: begin <= i < p ==> !IsSpace(text[i])
      decreases |text| - p
    {
      ghost var before := p;
      p := FindAsciiSpaceCandidate(text, p);
      assert forall i :: before <= i < p ==> !CanBeSpace(text[i]);
      if |text| <= p || IsSpace(text[p]) {
        break;
      }
      p := p + 1;
    }
    WordEndIs(text, begin, p);
    found, next, unit := true, p, Unit(begin, p);
  }

  method NextSentenceUnit(desc: Chunker, text: seq<Byte>, pos: nat)
      returns (found: bool, next: nat, unit: Unit)
    requires pos <= |text| && desc.mode.Sentence?
    ensures NextUnit(desc, text, pos) == if found then Some(unit) else None
    ensures next == if found then unit.end else |text|
  {
    var p := pos;
    while p < |text| && IsSpace(text[p])
      invariant pos <= p <= |text|
      invariant forall i :: pos <= i < p ==> IsSpace(text[i])
    {
      p := p + 1;
    }
    SkipSpaceIs(text, pos, p);
    if |text| <= p {
      return false, p, Unit(p, p);
    }
    var begin := p;
    while p < |text|
      invariant begin <= p <= |text|
      invariant SentenceEnd(desc, text, p) == SentenceEnd(desc, text, begin)
      decreases |text| - p
    {
      var c := text[p];
      p := Utf8Step(text, p);
      var delimits := FindDelimiter(desc, c);
      if delimits {
        break;
      }
    }
    found, next, unit := true, p, Unit(begin, p);
  }

  method FindNextUnit(desc: Chunker, text: seq<Byte>, pos: nat)
      returns (found: bool, next: nat, unit: Unit)
    requires pos <= |text|
    ensures NextUnit(desc, text, pos) == if found then Some(unit) else None
    ensures found ==> next == unit.end
    ensures !found && desc.mode.Word? ==> next == |text|
    ensures pos <= next <= |text|
  {
    match desc.mode
    case Char => found, next, unit := NextCharUnit(text, pos);
    case Word => found, next, unit := NextWordUnit(text, pos);
    case Sentence => found, next, unit := NextSentenceUnit(desc, text, pos);
    case _ => found, next, unit := false, pos, Unit(pos, pos);
  }
}
