// How risk geometries are written out, and when two of them read the same.
module Display {
  import opened Prelude
  import opened Risk
  import opened Strings

  function RoundHalfEven(x: real): int {
    var low := x.Floor;
    var rest := x - low as real;
    if rest < 0.5 || (rest == 0.5 && low % 2 == 0) then low else low + 1
  }

  // A magnitude in units of the last place shown.
  function Units(v: real, scale: real): nat {
    var units := RoundHalfEven(Abs(v) * scale);
    if units < 0 then 0 else units
  }

  function SignText(v: real): string {
    if v < 0.0 then "-" else ""
  }

  // A number shown with a fixed count of decimals; a negative that rounds to zero keeps its sign.
  function Fixed(v: real, scale: real, places: nat): string
    requires scale >= 0.0
  {
    SignText(v) + Decimal(Units(v, scale), places)
  }

  function TrimEnd(s: string, c: char): string {
    if s != "" && s[|s| - 1] == c then TrimEnd(s[..|s| - 1], c) else s
  }

  function FormatNumber(v: real): string {
    TrimEnd(TrimEnd(Fixed(v, 100.0, 2), '0'), '.')
  }

  function StopText(s: StopSpec): string {
    match s
    case StopAtr(mult) => FormatNumber(mult) + "ATR"
    case StopFixed(dollars) => "$" + FormatNumber(dollars)
    case StopPercent(pct) => FormatNumber(pct) + "%"
  }

  function TargetText(t: TargetSpec): string {
    match t
    case TargetAtr(mult) => FormatNumber(mult) + "ATR"
    case TargetFixed(dollars) => "$" + FormatNumber(dollars)
    case TargetPercent(pct) => FormatNumber(pct) + "%"
    case RMultiple(r) => FormatNumber(r) + "R"
  }

  function RiskText(risk: RiskModel): string {
    var base := "stop=" + StopText(risk.stop) + " target=" + TargetText(risk.target1);
    if risk.target2.Some? then base + "/" + TargetText(risk.target2.value) else base
  }

  // ---- numbers ----------------------------------------------------------------------

  // What a written number shows: its sign and its hundredths.
  datatype Shown = Shown(negative: bool, hundredths: nat)

  function ShownAs(v: real): Shown {
    Shown(v < 0.0, Units(v, 100.0))
  }

  ghost predicate EndsWith(s: string, c: char) {
    s != "" && s[|s| - 1] == c
  }

  lemma {:induction false} TrimConcat(a: string, f: string, c: char)
    requires !EndsWith(a, c)
    ensures TrimEnd(a + f, c) == a + TrimEnd(f, c)
  {
    var s := a + f;
    if f == "" {
      assert s == a;
    } else if f[|f| - 1] == c {
      assert s[..|s| - 1] == a + f[..|f| - 1];
      TrimConcat(a, f[..|f| - 1], c);
    }
  }

  lemma {:induction false} TrimKeepsDigits(f: string, c: char)
    requires AllDigits(f)
    ensures AllDigits(TrimEnd(f, c)) && !EndsWith(TrimEnd(f, c), c)
  {
    if EndsWith(f, c) {
      TrimKeepsDigits(f[..|f| - 1], c);
    }
  }

  // A text of known length is recovered from what trimming leaves of it.
  lemma {:induction false} TrimDetermines(f: string, g: string, c: char)
    requires |f| == |g| && TrimEnd(f, c) == TrimEnd(g, c)
    ensures f == g
  {
    TrimShrinks(f, c);
    TrimShrinks(g, c);
    if EndsWith(f, c) && EndsWith(g, c) {
      TrimDetermines(f[..|f| - 1], g[..|g| - 1], c);
      assert f == f[..|f| - 1] + [c] && g == g[..|g| - 1] + [c];
    }
  }

  lemma {:induction false} TrimShrinks(f: string, c: char)
    ensures |TrimEnd(f, c)| <= |f|
    ensures EndsWith(f, c) <==> |TrimEnd(f, c)| < |f|
  {
    if EndsWith(f, c) {
      TrimShrinks(f[..|f| - 1], c);
    }
  }

  function WholeText(v: real): string {
    SignText(v) + Digits(Whole(Units(v, 100.0), 2))
  }

  function Fraction(v: real): string {
    TrimEnd(Padded(Units(v, 100.0), 2), '0')
  }

  lemma FractionIsDigits(v: real)
    ensures AllDigits(Fraction(v)) && '.' !in Fraction(v)
  {
    PaddedIsDigits(Units(v, 100.0), 2);
    TrimKeepsDigits(Padded(Units(v, 100.0), 2), '0');
  }

  lemma WholeTextEnds(v: real)
    ensures WholeText(v) != "" && '0' <= WholeText(v)[|WholeText(v)| - 1] <= '9' && '.' !in WholeText(v)
    ensures WholeText(v)[0] == '-' <==> v < 0.0
  {
    DigitsAreDigits(Whole(Units(v, 100.0), 2));
  }

  // A number reads as its whole part and, unless they are all zeros, its decimals.
  lemma NumberReads(v: real)
    ensures FormatNumber(v) == if Fraction(v) == "" then WholeText(v) else WholeText(v) + ['.'] + Fraction(v)
  {
    hide Units, Digits, Padded, Whole;
    var p, f := WholeText(v), Padded(Units(v, 100.0), 2);
    assert Fixed(v, 100.0, 2) == (p + ['.']) + f;
    TrimConcat(p + ['.'], f, '0');
    WholeTextEnds(v);
    FractionIsDigits(v);
    TrimDot(p, Fraction(v));
  }

  lemma TrimDot(p: string, f: string)
    requires p != "" && p[|p| - 1] != '.' && '.' !in f
    ensures TrimEnd((p + ['.']) + f, '.') == if f == "" then p else p + ['.'] + f
  {
    if f == "" {
      assert (p + ['.']) + f == p + ['.'];
      assert (p + ['.'])[..|p|] == p;
    }
  }

  // Two numbers are written alike exactly when they show the same sign and hundredths.
  lemma NumbersAlike(v: real, w: real)
    ensures FormatNumber(v) == FormatNumber(w) <==> ShownAs(v) == ShownAs(w)
  {
    NumberReads(v);
    NumberReads(w);
    if FormatNumber(v) == FormatNumber(w) {
      hide FormatNumber, WholeText, Fraction, Units;
      WholeTextEnds(v);
      WholeTextEnds(w);
      FractionIsDigits(v);
      FractionIsDigits(w);
      SplitNumber(WholeText(v), Fraction(v), WholeText(w), Fraction(w));
      PartsDetermine(v, w);
    }
    if ShownAs(v) == ShownAs(w) {
      hide FormatNumber, Units;
    }
  }

  lemma SplitNumber(p: string, f: string, q: string, g: string)
    requires '.' !in p && '.' !in q
    requires (if f == "" then p else p + ['.'] + f) == (if g == "" then q else q + ['.'] + g)
    ensures p == q && f == g
  {
    if f != "" && g != "" {
      SplitAtFirst(p, f, q, g, '.');
    } else if f != "" {
      HoldsDot(p, f);
    } else if g != "" {
      HoldsDot(q, g);
    }
  }

  lemma HoldsDot(p: string, f: string)
    ensures '.' in p + ['.'] + f
  {
    assert (p + ['.'] + f)[|p|] == '.';
  }

  lemma PartsDetermine(v: real, w: real)
    requires WholeText(v) == WholeText(w) && Fraction(v) == Fraction(w)
    ensures ShownAs(v) == ShownAs(w)
  {
    hide Units;
    var m, n := Units(v, 100.0), Units(w, 100.0);
    WholeTextEnds(v);
    WholeTextEnds(w);
    assert Digits(Whole(m, 2)) == Digits(Whole(n, 2)) by {
      if v < 0.0 {
        assert Digits(Whole(m, 2)) == WholeText(v)[1..];
        assert Digits(Whole(n, 2)) == WholeText(w)[1..];
      } else {
        assert WholeText(v) == Digits(Whole(m, 2));
        assert WholeText(w) == Digits(Whole(n, 2));
      }
    }
    DigitsInjective(Whole(m, 2), Whole(n, 2));
    TrimDetermines(Padded(m, 2), Padded(n, 2), '0');
    PaddedInjective(m, n, 2);
  }

  // ---- geometries ----------------------------------------------------------------------

  // The characters numbers are written with.
  ghost predicate NumberText(s: string) {
    s != "" && forall i :: 0 <= i < |s| ==> '0' <= s[i] <= '9' || s[i] == '.' || s[i] == '-'
  }

  lemma FormatIsNumber(v: real)
    ensures NumberText(FormatNumber(v))
  {
    NumberReads(v);
    hide FormatNumber, Units;
    DigitsAreDigits(Whole(Units(v, 100.0), 2));
    FractionIsDigits(v);
  }

  ghost predicate StopsAlike(s: StopSpec, t: StopSpec) {
    && s.StopAtr? == t.StopAtr? && s.StopFixed? == t.StopFixed?
    && ShownAs(s.Magnitude()) == ShownAs(t.Magnitude())
  }

  function TargetMagnitude(t: TargetSpec): real {
    match t
    case TargetAtr(mult) => mult
    case TargetFixed(dollars) => dollars
    case TargetPercent(pct) => pct
    case RMultiple(r) => r
  }

  ghost predicate TargetsAlike(s: TargetSpec, t: TargetSpec) {
    && s.TargetAtr? == t.TargetAtr? && s.TargetFixed? == t.TargetFixed? && s.RMultiple? == t.RMultiple?
    && ShownAs(TargetMagnitude(s)) == ShownAs(TargetMagnitude(t))
  }

  // The same kinds, with magnitudes showing the same sign and hundredths.
  ghost predicate RisksAlike(a: RiskModel, b: RiskModel) {
    && StopsAlike(a.stop, b.stop) && TargetsAlike(a.target1, b.target1)
    && a.target2.Some? == b.target2.Some?
    && (a.target2.Some? ==> TargetsAlike(a.target2.value, b.target2.value))
  }

  // The four ways a number is dressed; from the text both the dress and the number come back.
  datatype Dress = InAtr | InDollars | InPercent | InR

  function Dressed(d: Dress, n: string): string {
    match d
    case InAtr => n + "ATR"
    case InDollars => "$" + n
    case InPercent => n + "%"
    case InR => n + "R"
  }

  lemma DressedInjective(d: Dress, n: string, e: Dress, m: string)
    requires NumberText(n) && NumberText(m) && Dressed(d, n) == Dressed(e, m)
    ensures d == e && n == m
  {
    var s := Dressed(d, n);
    DressOf(d, n);
    DressOf(e, m);
    assert n == match d case InAtr => s[..|s| - 3] case InDollars => s[1..] case _ => s[..|s| - 1];
    assert m == match e case InAtr => s[..|s| - 3] case InDollars => s[1..] case _ => s[..|s| - 1];
  }

  lemma DressOf(d: Dress, n: string)
    requires NumberText(n)
    ensures var s := Dressed(d, n);
            && |s| >= 2 && (s[|s| - 1] == '%' <==> d == InPercent) && (s[0] == '$' <==> d == InDollars)
            && (s[|s| - 1] == 'R' && s[|s| - 2] == 'T' <==> d == InAtr)
  {
    var s := Dressed(d, n);
    match d
    case InAtr => assert s[|s| - 1] == "ATR"[2] && s[|s| - 2] == "ATR"[1] && s[0] == n[0];
    case InDollars => assert s[|s| - 1] == n[|n| - 1] && s[0] == '$';
    case InPercent => assert s[|s| - 1] == '%' && s[0] == n[0];
    case InR => assert s[|s| - 1] == 'R' && s[|s| - 2] == n[|n| - 1] && s[0] == n[0];
  }

  // A dressed number holds no separator of the description.
  lemma DressedIsPlain(d: Dress, n: string, c: char)
    requires NumberText(n) && c in {' ', '/', ']'}
    ensures c !in Dressed(d, n)
  {
  }

  function StopDress(s: StopSpec): Dress {
    match s
    case StopAtr(_) => InAtr
    case StopFixed(_) => InDollars
    case StopPercent(_) => InPercent
  }

  function TargetDress(t: TargetSpec): Dress {
    match t
    case TargetAtr(_) => InAtr
    case TargetFixed(_) => InDollars
    case TargetPercent(_) => InPercent
    case RMultiple(_) => InR
  }

  lemma StopsCanonical(s: StopSpec, t: StopSpec)
    ensures StopText(s) == StopText(t) <==> StopsAlike(s, t)
    ensures ' ' !in StopText(s) && ']' !in StopText(s)
  {
    hide FormatNumber, ShownAs;
    FormatIsNumber(s.Magnitude());
    FormatIsNumber(t.Magnitude());
    NumbersAlike(s.Magnitude(), t.Magnitude());
    assert StopText(s) == Dressed(StopDress(s), FormatNumber(s.Magnitude()));
    assert StopText(t) == Dressed(StopDress(t), FormatNumber(t.Magnitude()));
    hide Dressed;
    DressedIsPlain(StopDress(s), FormatNumber(s.Magnitude()), ' ');
    DressedIsPlain(StopDress(s), FormatNumber(s.Magnitude()), ']');
    if StopText(s) == StopText(t) {
      DressedInjective(StopDress(s), FormatNumber(s.Magnitude()), StopDress(t), FormatNumber(t.Magnitude()));
    }
  }

  lemma TargetsCanonical(s: TargetSpec, t: TargetSpec)
    ensures TargetText(s) == TargetText(t) <==> TargetsAlike(s, t)
    ensures '/' !in TargetText(s) && ']' !in TargetText(s)
  {
    hide FormatNumber, ShownAs;
    var x, y := TargetMagnitude(s), TargetMagnitude(t);
    FormatIsNumber(x);
    FormatIsNumber(y);
    NumbersAlike(x, y);
    assert TargetText(s) == Dressed(TargetDress(s), FormatNumber(x));
    assert TargetText(t) == Dressed(TargetDress(t), FormatNumber(y));
    hide Dressed;
    DressedIsPlain(TargetDress(s), FormatNumber(x), '/');
    DressedIsPlain(TargetDress(s), FormatNumber(x), ']');
    if TargetText(s) == TargetText(t) {
      DressedInjective(TargetDress(s), FormatNumber(x), TargetDress(t), FormatNumber(y));
    }
  }

  // The first target's text and, if there is one, the second's.
  function TargetsText(risk: RiskModel): string {
    if risk.target2.Some? then TargetText(risk.target1) + ['/'] + TargetText(risk.target2.value)
    else TargetText(risk.target1)
  }

  lemma RiskTextParts(risk: RiskModel)
    ensures RiskText(risk) == "stop=" + (StopText(risk.stop) + [' '] + ("target=" + TargetsText(risk)))
  {
    hide StopText, TargetText;
  }

  // Two descriptions are equal exactly when the kinds agree and the magnitudes show the same
  // sign and hundredths.
  lemma RiskTextCanonical(a: RiskModel, b: RiskModel)
    ensures RiskText(a) == RiskText(b) <==> RisksAlike(a, b)
    ensures ']' !in RiskText(a)
  {
    hide StopText, TargetText, StopsAlike, TargetsAlike;
    RiskTextParts(a);
    RiskTextParts(b);
    hide RiskText;
    StopsCanonical(a.stop, b.stop);
    TargetsAreCanonical(a, b);
    hide TargetsText;
    var x, y := "target=" + TargetsText(a), "target=" + TargetsText(b);
    if RiskText(a) == RiskText(b) {
      assert StopText(a.stop) + [' '] + x == RiskText(a)[5..] && StopText(b.stop) + [' '] + y == RiskText(b)[5..];
      StopsCanonical(b.stop, a.stop);
      SplitAtFirst(StopText(a.stop), x, StopText(b.stop), y, ' ');
      assert TargetsText(a) == x[7..] && TargetsText(b) == y[7..];
    }
  }

  lemma TargetsAreCanonical(a: RiskModel, b: RiskModel)
    ensures TargetsText(a) == TargetsText(b) <==>
              && TargetsAlike(a.target1, b.target1) && a.target2.Some? == b.target2.Some?
              && (a.target2.Some? ==> TargetsAlike(a.target2.value, b.target2.value))
    ensures ']' !in TargetsText(a)
  {
    hide TargetText, TargetsAlike;
    var s, t := TargetText(a.target1), TargetText(b.target1);
    TargetsCanonical(a.target1, b.target1);
    TargetsCanonical(b.target1, a.target1);
    if a.target2.Some? {
      TargetsCanonical(a.target2.value, a.target2.value);
      assert TargetsText(a)[|s|] == '/';
    }
    if b.target2.Some? {
      assert TargetsText(b)[|t|] == '/';
    }
    if a.target2.Some? && b.target2.Some? {
      TargetsCanonical(a.target2.value, b.target2.value);
      if TargetsText(a) == TargetsText(b) {
        SplitAtFirst(s, TargetText(a.target2.value), t, TargetText(b.target2.value), '/');
      }
    }
  }
}
