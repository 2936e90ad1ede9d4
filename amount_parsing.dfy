/** What the position tracker makes of the futures page: the parsing of the
    closable amounts shown for each side into a position list, and the close
    requests the close-everything loop derives from that list. */
module AmountParsing {
  import opened Market

  /** What the page shows in the closable-amounts row: the short amount text
      and the long amount text, or nothing readable. */
  datatype Reading = Unreadable | Row(shortText: string, longText: string)

  // ---------------------------------------------------------------------------
  // `_parse_amount`: strip decorations, keep digits and dots, then `float()`.

  predicate IsDigit(c: char) { '0' <= c <= '9' }

  predicate IsNumeric(c: char) { IsDigit(c) || c == '.' }

  predicate AllDigits(s: string) { forall i :: 0 <= i < |s| ==> IsDigit(s[i]) }

  predicate AllNumeric(s: string) { forall i :: 0 <= i < |s| ==> IsNumeric(s[i]) }

  predicate NoNumeric(s: string) { forall i :: 0 <= i < |s| ==> !IsNumeric(s[i]) }

  /** `re.sub(r"[^0-9.]+", "", s)`: the digits and dots of s, in order. */
  function KeepNumeric(s: string): (r: string)
    ensures AllNumeric(r)
    ensures |r| <= |s|
    ensures AllNumeric(s) ==> r == s
  {
    if s == [] then [] else (if IsNumeric(s[0]) then [s[0]] else []) + KeepNumeric(s[1..])
  }

  /** `s.replace(pat, "")`: occurrences removed left to right, without overlap. */
  function RemoveAll(s: string, pat: string): string
    requires pat != []
  {
    if s == [] then []
    else if pat <= s then RemoveAll(s[|pat|..], pat)
    else [s[0]] + RemoveAll(s[1..], pat)
  }

  predicate IsSpace(c: char) {
    c == ' ' || c == '\t' || c == '\n' || c == '\r' || c == '\U{000B}' || c == '\U{000C}'
  }

  function TrimLeft(s: string): string {
    if s != [] && IsSpace(s[0]) then TrimLeft(s[1..]) else s
  }

  function TrimRight(s: string): string {
    if s != [] && IsSpace(s[|s| - 1]) then TrimRight(s[..|s| - 1]) else s
  }

  /** The decorations `_parse_amount` replaces by "", in its order: zero-width
      space, ideographic space, the coin names and the thousands separator. */
  const Decorations: seq<string> := ["\U{200B}", "\U{3000}", "BTC", "ETH", "USDT", ","]

  predicate NonEmptyPatterns(pats: seq<string>) {
    forall i :: 0 <= i < |pats| ==> pats[i] != []
  }

  /** The chain of `replace` calls, one pattern after the other. */
  function RemoveEach(s: string, pats: seq<string>): string
    requires NonEmptyPatterns(pats)
    decreases |pats|
  {
    if pats == [] then s else RemoveEach(RemoveAll(s, pats[0]), pats[1..])
  }

  /** The string `_parse_amount` hands to `float()`, before the empty case. */
  function Cleaned(raw: string): string {
    KeepNumeric(TrimRight(TrimLeft(RemoveEach(raw, Decorations))))
  }

  lemma {:induction false} KeepNumericAppend(a: string, b: string)
    ensures KeepNumeric(a + b) == KeepNumeric(a) + KeepNumeric(b)
  {
    if a != [] {
      var head := if IsNumeric(a[0]) then [a[0]] else [];
      assert (a + b)[0] == a[0];
      assert (a + b)[1..] == a[1..] + b;
      KeepNumericAppend(a[1..], b);
      calc {
        KeepNumeric(a + b);
        head + KeepNumeric(a[1..] + b);
        head + (KeepNumeric(a[1..]) + KeepNumeric(b));
        (head + KeepNumeric(a[1..])) + KeepNumeric(b);
        KeepNumeric(a) + KeepNumeric(b);
      }
    } else {
      assert a + b == b;
    }
  }

  lemma {:induction false} KeepNumericOfNone(s: string)
    requires NoNumeric(s)
    ensures KeepNumeric(s) == []
  {
    if s != [] {
      KeepNumericOfNone(s[1..]);
    }
  }

  /** Removing a pattern without digits or dots never changes the digits and dots. */
  lemma {:induction false} KeepNumericRemoveAll(s: string, pat: string)
    requires pat != [] && NoNumeric(pat)
    ensures KeepNumeric(RemoveAll(s, pat)) == KeepNumeric(s)
  {
    if s != [] {
      if pat <= s {
        KeepNumericRemoveAll(s[|pat|..], pat);
        assert s == pat + s[|pat|..];
        KeepNumericAppend(pat, s[|pat|..]);
        KeepNumericOfNone(pat);
      } else {
        KeepNumericRemoveAll(s[1..], pat);
        assert [s[0]] + RemoveAll(s[1..], pat) == [s[0]] + RemoveAll(s[1..], pat);
        KeepNumericAppend([s[0]], RemoveAll(s[1..], pat));
      }
    }
  }

  lemma {:induction false} KeepNumericTrimLeft(s: string)
    ensures KeepNumeric(TrimLeft(s)) == KeepNumeric(s)
  {
    if s != [] && IsSpace(s[0]) {
      KeepNumericTrimLeft(s[1..]);
    }
  }

  lemma {:induction false} KeepNumericTrimRight(s: string)
    ensures KeepNumeric(TrimRight(s)) == KeepNumeric(s)
  {
    if s != [] && IsSpace(s[|s| - 1]) {
      KeepNumericTrimRight(s[..|s| - 1]);
      assert s == s[..|s| - 1] + [s[|s| - 1]];
      KeepNumericAppend(s[..|s| - 1], [s[|s| - 1]]);
    }
  }

  lemma {:induction false} KeepNumericRemoveEach(s: string, pats: seq<string>)
    requires NonEmptyPatterns(pats)
    requires forall i :: 0 <= i < |pats| ==> NoNumeric(pats[i])
    ensures KeepNumeric(RemoveEach(s, pats)) == KeepNumeric(s)
    decreases |pats|
  {
    if pats != [] {
      KeepNumericRemoveAll(s, pats[0]);
      KeepNumericRemoveEach(RemoveAll(s, pats[0]), pats[1..]);
    }
  }

  /** The replacements and the strip before the filter are all subsumed by it:
      what reaches `float()` is exactly the digits and dots of the raw text. */
  lemma CleanedIsKeepNumeric(raw: string)
    ensures Cleaned(raw) == KeepNumeric(raw)
  {
    var s := RemoveEach(raw, Decorations);
    assert forall i :: 0 <= i < |Decorations| ==> NoNumeric(Decorations[i]);
    KeepNumericRemoveEach(raw, Decorations);
    KeepNumericTrimLeft(s);
    KeepNumericTrimRight(TrimLeft(s));
  }

  function CountDots(s: string): nat {
    if s == [] then 0 else (if s[0] == '.' then 1 else 0) + CountDots(s[1..])
  }

  /** Position of the first dot. */
  function DotIndex(s: string): (i: nat)
    requires CountDots(s) > 0
    ensures i < |s| && s[i] == '.'
    ensures forall j :: 0 <= j < i ==> s[j] != '.'
    ensures CountDots(s[i + 1..]) == CountDots(s) - 1
  {
    if s[0] == '.' then 0 else DotIndex(s[1..]) + 1
  }

  lemma {:induction false} CountDotsAppend(a: string, b: string)
    ensures CountDots(a + b) == CountDots(a) + CountDots(b)
  {
    if a == [] {
      assert a + b == b;
    } else {
      assert (a + b)[1..] == a[1..] + b;
      CountDotsAppend(a[1..], b);
    }
  }

  lemma {:induction false} AllDigitsNoDots(s: string)
    requires AllDigits(s)
    ensures CountDots(s) == 0
  {
    if s != [] {
      AllDigitsNoDots(s[1..]);
    }
  }

  lemma {:induction false} NoDotsAllDigits(s: string)
    requires AllNumeric(s) && CountDots(s) == 0
    ensures AllDigits(s)
  {
    if s != [] {
      NoDotsAllDigits(s[1..]);
    }
  }

  function DigitsValue(s: string): nat
    requires AllDigits(s)
  {
    if s == [] then 0 else DigitsValue(s[..|s| - 1]) * 10 + (s[|s| - 1] as int - '0' as int)
  }

  function Pow10(n: nat): (p: nat)
    ensures p > 0
  {
    if n == 0 then 1 else 10 * Pow10(n - 1)
  }

  /** The decimal whose whole part is `whole` and whose `places` fractional
      digits spell `frac`. */
  function Decimal(whole: nat, frac: nat, places: nat): (d: real)
    ensures d >= whole as real
  {
    whole as real + frac as real / Pow10(places) as real
  }

  /** Python's `float()` on a string of digits and dots; None where it raises
      ValueError (no digit at all, or more than one dot). */
  function ParseFloat(s: string): (r: Option<real>)
    requires AllNumeric(s)
    ensures r.Some? ==> r.value >= 0.0
    ensures CountDots(s) >= 2 ==> r.None?
    ensures CountDots(s) == 0 ==> (r.Some? <==> s != [])
    ensures AllDigits(s) && s != [] ==> r == Some(DigitsValue(s) as real)
  {
    assert AllDigits(s) ==> CountDots(s) == 0 by {
      if AllDigits(s) { AllDigitsNoDots(s); }
    }
    if CountDots(s) == 0 then
      NoDotsAllDigits(s);
      if s == [] then None else Some(DigitsValue(s) as real)
    else if CountDots(s) == 1 then
      var i := DotIndex(s);
      var whole, frac := s[..i], s[i + 1..];
      NoDotsAllDigits(frac);
      if whole == [] && frac == [] then None
      else Some(Decimal(DigitsValue(whole), DigitsValue(frac), |frac|))
    else None
  }

  lemma OneDotCount(w: string, f: string)
    requires AllDigits(w) && AllDigits(f)
    ensures AllNumeric(w + "." + f)
    ensures CountDots(w + "." + f) == 1
  {
    AllDigitsNoDots(w);
    AllDigitsNoDots(f);
    CountDotsAppend(w, ".");
    CountDotsAppend(w + ".", f);
    assert CountDots(".") == 1 by { assert "."[1..] == []; }
  }

  /** The only dot of `w + "." + f` sits right after w. */
  lemma OneDotAt(w: string, f: string)
    requires AllDigits(w) && AllDigits(f)
    ensures AllNumeric(w + "." + f)
    ensures CountDots(w + "." + f) == 1
    ensures DotIndex(w + "." + f) == |w|
  {
    OneDotCount(w, f);
    var s := w + "." + f;
    var i := DotIndex(s);
    assert s[|w|] == '.';
    assert forall j :: 0 <= j < |w| ==> s[j] == w[j];
  }

  /** A whole part and a fractional part around one dot read as the decimal
      they spell; either part may be empty, not both. */
  lemma ParseFloatOneDot(w: string, f: string)
    requires AllDigits(w) && AllDigits(f) && w + f != []
    ensures AllNumeric(w + "." + f)
    ensures ParseFloat(w + "." + f) == Some(Decimal(DigitsValue(w), DigitsValue(f), |f|))
  {
    var s := w + "." + f;
    OneDotAt(w, f);
    var i := DotIndex(s);
    assert s[..i] == w;
    assert s[i + 1..] == f;
  }

  /** `_parse_amount`: an empty filtered string reads as "0"; None stands for the
      ValueError `float()` raises. */
  function ParseAmount(raw: string): (r: Option<real>)
    ensures r.Some? ==> r.value >= 0.0
    ensures KeepNumeric(raw) == [] ==> r == Some(0.0)
    ensures CountDots(KeepNumeric(raw)) >= 2 ==> r.None?
    ensures KeepNumeric(raw) != [] ==> r == ParseFloat(KeepNumeric(raw))
  {
    CleanedIsKeepNumeric(raw);
    var c := Cleaned(raw);
    assert ParseFloat("0") == Some(0.0) by {
      assert CountDots("0") == 0;
      assert DigitsValue("0") == 0;
    }
    ParseFloat(if c == [] then "0" else c)
  }

  lemma ParseFloatExample()
    ensures ParseFloat("0.50") == Some(0.5)
  {
    assert CountDots("0.50") == 1;
    assert DotIndex("0.50") == 1;
    assert "0.50"[..1] == "0" && "0.50"[2..] == "50";
    assert DigitsValue("0") == 0;
    assert DigitsValue("50") == 50;
  }

  /** Filtering digits and dots wrapped in text without any keeps exactly them. */
  lemma KeepNumericBetween(before: string, amount: string, after: string)
    requires NoNumeric(before) && AllNumeric(amount) && NoNumeric(after)
    ensures KeepNumeric(before + amount + after) == amount
  {
    KeepNumericAppend(before + amount, after);
    KeepNumericAppend(before, amount);
    KeepNumericOfNone(before);
    KeepNumericOfNone(after);
  }

  lemma KeepNumericExample()
    ensures KeepNumeric("\U{200E}0.50 ETH") == "0.50"
  {
    KeepNumericBetween("\U{200E}", "0.50", " ETH");
    assert "\U{200E}" + "0.50" + " ETH" == "\U{200E}0.50 ETH";
  }

  /** The example of the docstring: "0.50 ETH", with a left-to-right mark in front. */
  lemma ParseAmountExample()
    ensures ParseAmount("\U{200E}0.50 ETH") == Some(0.5)
  {
    CleanedIsKeepNumeric("\U{200E}0.50 ETH");
    KeepNumericExample();
    ParseFloatExample();
  }

  lemma ParseAmountTwoDots()
    ensures ParseAmount("1.2.3") == None
  {
    var raw := "1.2.3";
    assert KeepNumeric(raw) == raw by {
      assert KeepNumeric(raw[4..]) == "3";
      assert KeepNumeric(raw[3..]) == ".3";
      assert KeepNumeric(raw[2..]) == "2.3";
      assert KeepNumeric(raw[1..]) == ".2.3";
    }
    assert CountDots(raw) == 2 by {
      assert CountDots(raw[4..]) == 0;
      assert CountDots(raw[3..]) == 1;
      assert CountDots(raw[2..]) == 1;
      assert CountDots(raw[1..]) == 2;
    }
  }

  // ---------------------------------------------------------------------------
  // Shaping of `get_open_positions`.

  /** The list built from the two parsed amounts: a SHORT entry if its amount
      is positive, then a LONG entry if its amount is positive; empty when either
      amount failed to parse. */
  function Shape(shortAmount: Option<real>, longAmount: Option<real>): (ps: seq<Position>)
    ensures AllPositive(ps)
    ensures |ps| <= 2
    ensures forall i, j :: 0 <= i < j < |ps| ==> ps[i].side == Short && ps[j].side == Long
    ensures shortAmount.None? || longAmount.None? ==> ps == []
  {
    match (shortAmount, longAmount)
    case (Some(s), Some(l)) =>
      (if s > 0.0 then [Position(Short, s)] else []) + (if l > 0.0 then [Position(Long, l)] else [])
    case _ => []
  }

  /** The amount shown for one side, 0 when either amount failed to parse. */
  function Shown(shortAmount: Option<real>, longAmount: Option<real>, side: Side): (a: real)
    ensures (shortAmount.Some? ==> shortAmount.value >= 0.0) && (longAmount.Some? ==> longAmount.value >= 0.0) ==> a >= 0.0
  {
    match (shortAmount, longAmount)
    case (Some(s), Some(l)) => if side == Short then s else l
    case _ => 0.0
  }

  /** `get_open_positions`: the position list built from one reading; empty when
      the row cannot be read. */
  function OpenPositions(rd: Reading): (ps: seq<Position>)
    ensures AllPositive(ps)
    ensures |ps| <= 2
    ensures forall i, j :: 0 <= i < j < |ps| ==> ps[i].side == Short && ps[j].side == Long
    ensures rd.Unreadable? ==> ps == []
    ensures rd.Row? && (ParseAmount(rd.shortText).None? || ParseAmount(rd.longText).None?) ==> ps == []
  {
    match rd
    case Unreadable => []
    case Row(shortText, longText) => Shape(ParseAmount(shortText), ParseAmount(longText))
  }

  /** The amount a reading shows for one side, 0 when it shows nothing usable. */
  function ShownAmount(rd: Reading, side: Side): (a: real)
    ensures a >= 0.0
  {
    match rd
    case Unreadable => 0.0
    case Row(shortText, longText) => Shown(ParseAmount(shortText), ParseAmount(longText), side)
  }

  lemma ShapeTotals(sa: Option<real>, la: Option<real>, side: Side)
    requires sa.Some? ==> sa.value >= 0.0
    requires la.Some? ==> la.value >= 0.0
    ensures SideTotal(Shape(sa, la), side) == Shown(sa, la, side)
    ensures LastSize(Shape(sa, la), side) == Shown(sa, la, side)
  {
    match (sa, la)
    case (Some(s), Some(l)) =>
      if s > 0.0 && l > 0.0 {
        assert Shape(sa, la) == [Position(Short, s), Position(Long, l)];
        TotalsOfPair(Position(Short, s), Position(Long, l), side);
      } else if s > 0.0 {
        assert Shape(sa, la) == [Position(Short, s)];
        TotalsOfSingle(Position(Short, s), side);
      } else if l > 0.0 {
        assert Shape(sa, la) == [Position(Long, l)];
        TotalsOfSingle(Position(Long, l), side);
      } else {
        assert Shape(sa, la) == [];
      }
    case _ =>
  }

  lemma TotalsOfSingle(a: Position, side: Side)
    ensures SideTotal([a], side) == LastSize([a], side) == (if a.side == side then a.size else 0.0)
  {
    assert [a][..0] == [];
  }

  lemma TotalsOfPair(a: Position, b: Position, side: Side)
    requires a.side != b.side
    ensures SideTotal([a, b], side) == LastSize([a, b], side)
    ensures SideTotal([a, b], side) == (if a.side == side then a.size else 0.0) + (if b.side == side then b.size else 0.0)
  {
    assert [a, b][..1] == [a];
    TotalsOfSingle(a, side);
  }

  /** Summing the list (as the strategy's readback does) and taking the last
      entry per side (as the risk controller does) agree on a shaped list, and
      both give the amount the page shows; the list is empty exactly when both
      shown amounts are 0. */
  lemma OpenPositionsTotals(rd: Reading, side: Side)
    ensures SideTotal(OpenPositions(rd), side) == ShownAmount(rd, side)
    ensures LastSize(OpenPositions(rd), side) == ShownAmount(rd, side)
    ensures OpenPositions(rd) == [] <==> ShownAmount(rd, Long) == 0.0 && ShownAmount(rd, Short) == 0.0
  {
    match rd
    case Unreadable =>
    case Row(shortText, longText) =>
      var sa, la := ParseAmount(shortText), ParseAmount(longText);
      ShapeTotals(sa, la, side);
  }

  // ---------------------------------------------------------------------------
  // `close_all_positions`.

  /** One close request per listed entry of positive size, for that entry's side and size. */
  function CloseRequests(ps: seq<Position>): seq<Request> {
    if ps == [] then []
    else
      var last := ps[|ps| - 1];
      CloseRequests(ps[..|ps| - 1]) + (if last.size > 0.0 then [Close(last.side, last.size)] else [])
  }

  lemma {:induction false} CloseRequestsCoverList(ps: seq<Position>)
    requires AllPositive(ps)
    ensures |CloseRequests(ps)| == |ps|
    ensures forall i :: 0 <= i < |ps| ==> CloseRequests(ps)[i] == Close(ps[i].side, ps[i].size)
  {
    if ps != [] {
      CloseRequestsCoverList(ps[..|ps| - 1]);
    }
  }

  lemma {:induction false} CloseRequestsAreCloses(ps: seq<Position>)
    ensures forall i :: 0 <= i < |CloseRequests(ps)| ==> CloseRequests(ps)[i].Close?
  {
    if ps != [] {
      CloseRequestsAreCloses(ps[..|ps| - 1]);
    }
  }
}
