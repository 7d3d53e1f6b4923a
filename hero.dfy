/** Two pieces of the landing page (frontend/src/components/Hero.tsx): the
    `formatTime` duration formatter and the typewriter animation, whose
    effect is a step function over `(typewriterText, isDeleting,
    currentStringIndex)`. */
module Hero {
  import opened Common

  // ---------------------------------------------------------------------
  // JavaScript numbers and their rendering

  /** A JavaScript number, without the infinities. */
  datatype Number = NaN | Finite(value: real)

  /** `Math.trunc` on a finite value. */
  function Trunc(x: real): (t: int)
    ensures x >= 0.0 ==> t == x.Floor
  {
    if x >= 0.0 then x.Floor else -((-x).Floor)
  }

  /** The `%` operator: the remainder takes the sign of the dividend. */
  function Rem(x: real, m: real): real
    requires m != 0.0
  {
    x - m * Trunc(x / m) as real
  }

  /** For a positive modulus the remainder lies strictly within one modulus
      of zero, on the side of the dividend. */
  lemma RemSign(x: real, m: real)
    requires m > 0.0
    ensures x >= 0.0 ==> 0.0 <= Rem(x, m) < m
    ensures x < 0.0 ==> -m < Rem(x, m) <= 0.0
  {
    var q := x / m;
    assert x >= 0.0 <==> q >= 0.0;
    Scale(m, q, Trunc(q) as real, Rem(x, m));
  }

  /** `r = m (q - k)` for a positive `m` and `k` the truncation of `q`
      lies strictly within `m` of zero, on the side of `q`. */
  lemma Scale(m: real, q: real, k: real, r: real)
    requires m > 0.0 && r == m * q - m * k
    requires q >= 0.0 ==> k <= q < k + 1.0
    requires q < 0.0 ==> k - 1.0 < q <= k
    ensures q >= 0.0 ==> 0.0 <= r < m
    ensures q < 0.0 ==> -m < r <= 0.0
  {
    var d := q - k;
    var e := if q >= 0.0 then 1.0 - d else 1.0 + d;
    var md, me := m * d, m * e;
    assert r == md;
    assert q >= 0.0 ==> m - md == me;
    assert q < 0.0 ==> m + md == me;
    assert me > 0.0;
    assert q >= 0.0 ==> md >= 0.0;
    assert q < 0.0 ==> md <= 0.0;
  }

  /** The decimal digits of `n`, as `n.toString()` writes them. */
  function Digits(n: nat): (s: string)
    ensures |s| >= 1
    ensures n < 10 <==> |s| == 1
  {
    if n < 10 then [DigitChar(n)] else Digits(n / 10) + [DigitChar(n % 10)]
  }

  function DigitChar(d: nat): (c: char)
    requires d < 10
    ensures '0' <= c <= '9' && c as int - '0' as int == d
  {
    (d + '0' as int) as char
  }

  /** `toString()` of an integer-valued number. */
  function IntToString(i: int): string {
    if i < 0 then "-" + Digits(-i) else Digits(i)
  }

  /** `toString()` writes a minus sign exactly for a negative number, then
      digits that read back as its magnitude. */
  lemma IntToStringReadsBack(i: int)
    ensures var s := IntToString(i);
      && s != [] && (s[0] == '-' <==> i < 0)
      && (i < 0 ==> AllDigits(s[1..]) && Decimal(s[1..]) == -i)
      && (i >= 0 ==> AllDigits(s) && Decimal(s) == i)
  {
    var n := if i < 0 then -i else i;
    DigitsAreDigits(n);
    DecimalDigits(n);
    if i < 0 {
      assert IntToString(i)[1..] == Digits(n);
    }
  }

  /** `padStart(2, "0")`. */
  function Pad2(s: string): (r: string)
    ensures |s| >= 2 ==> r == s
    ensures |s| < 2 ==> |r| == 2 && r[2 - |s|..] == s && forall k | 0 <= k < 2 - |s| :: r[k] == '0'
  {
    if |s| >= 2 then s else if |s| == 1 then "0" + s else "00"
  }

  // ---------------------------------------------------------------------
  // formatTime

  /** `formatTime(seconds)`: "0:00" for 0 and NaN; otherwise
      `H:MM:SS` when the hours are positive and `M:SS` when not. */
  function FormatTime(seconds: Number): (s: string)
    ensures seconds.NaN? || seconds == Finite(0.0) ==> s == "0:00"
  {
    match seconds
    case NaN => "0:00"
    case Finite(x) =>
      if x == 0.0 then "0:00"
      else
        var hours := (x / 3600.0).Floor;
        var minutes := (Rem(x, 3600.0) / 60.0).Floor;
        var secs := Rem(x, 60.0).Floor;
        if hours > 0 then IntToString(hours) + ":" + Pad2(IntToString(minutes)) + ":" + Pad2(IntToString(secs))
        else IntToString(minutes) + ":" + Pad2(IntToString(secs))
  }

  /** The three fields `formatTime` computes from a positive value, in terms
      of its whole seconds `t`: hours `t / 3600`, minutes `t % 3600 / 60`
      and seconds `t % 60`; the last two are below 60. */
  lemma FormatTimeFields(x: real)
    requires x > 0.0
    ensures var t := x.Floor;
      && (x / 3600.0).Floor == t / 3600
      && (Rem(x, 3600.0) / 60.0).Floor == t % 3600 / 60
      && Rem(x, 60.0).Floor == t % 60
      && 0 <= t % 3600 / 60 < 60 && 0 <= t % 60 < 60
  {
    var t := x.Floor;
    var h, r := t / 3600, t % 3600;
    var q, sec := t / 60, t % 60;
    assert (h * 3600) as real <= x < (h * 3600 + 3600) as real;
    assert (x / 3600.0).Floor == h;
    assert Rem(x, 3600.0) == x - (h * 3600) as real;
    assert Rem(x, 3600.0).Floor == r;
    var m := r / 60;
    assert (m * 60) as real <= Rem(x, 3600.0) < (m * 60 + 60) as real;
    assert (Rem(x, 3600.0) / 60.0).Floor == m;
    assert (q * 60) as real <= x < (q * 60 + 60) as real;
    assert (x / 60.0).Floor == q;
    assert Rem(x, 60.0) == x - (q * 60) as real;
  }

  // ---------------------------------------------------------------------
  // Reading a clock back

  function DigitValue(c: char): int { c as int - '0' as int }

  /** The number a run of decimal digits denotes. */
  function Decimal(s: string): int
  {
    if s == [] then 0 else Decimal(s[..|s| - 1]) * 10 + DigitValue(s[|s| - 1])
  }

  /** Reading back what `toString` wrote gives the number. */
  lemma {:induction false} DecimalDigits(n: nat)
    ensures Decimal(Digits(n)) == n
  {
    if n >= 10 {
      var s := Digits(n);
      assert s[..|s| - 1] == Digits(n / 10);
      DecimalDigits(n / 10);
    }
  }

  /** A zero put in front by `Pad2` does not change the value. */
  lemma DecimalPad2(n: nat)
    ensures Decimal(Pad2(Digits(n))) == n
  {
    DecimalDigits(n);
    var p := Pad2(Digits(n));
    if n < 10 {
      assert p[..1] == "0";
      assert Decimal(p[..1]) == 0;
    }
  }

  predicate AllDigits(s: string) { s != [] && forall k | 0 <= k < |s| :: '0' <= s[k] <= '9' }

  /** `s` ends in `:` and two digits: the seconds (or minutes) field of a
      clock. */
  predicate EndsInField(s: string) {
    |s| >= 3 && s[|s| - 3] == ':' && AllDigits(s[|s| - 2..])
  }

  /** The total seconds of a clock `H:MM:SS` or `M:SS`, where `H` and `M`
      are runs of digits and `MM` and `SS` exactly two digits each. */
  function ParseClock(s: string): Option<int> {
    if !EndsInField(s) then None
    else
      var secs := Decimal(s[|s| - 2..]);
      var rest := s[..|s| - 3];
      if EndsInField(rest) then
        var hours := rest[..|rest| - 3];
        if AllDigits(hours) then Some(Decimal(hours) * 3600 + Decimal(rest[|rest| - 2..]) * 60 + secs)
        else None
      else if AllDigits(rest) then Some(Decimal(rest) * 60 + secs)
      else None
  }

  /** `toString` writes only decimal digits, and `Pad2` of a number below
      100 writes exactly two. */
  lemma {:induction false} DigitsAreDigits(n: nat)
    ensures AllDigits(Digits(n))
    ensures n < 100 ==> |Pad2(Digits(n))| == 2 && AllDigits(Pad2(Digits(n)))
  {
    if n >= 10 {
      DigitsAreDigits(n / 10);
      assert |Digits(n / 10)| == 1 || n >= 100;
    }
  }

  /** A clock of two fields reads back as minutes and seconds. */
  lemma {:induction false} ParseTwoFields(a: string, b: string)
    requires AllDigits(a) && AllDigits(b) && |b| == 2
    ensures ParseClock(a + ":" + b) == Some(Decimal(a) * 60 + Decimal(b))
  {
    var s := a + ":" + b;
    assert s[|s| - 2..] == b;
    assert s[..|s| - 3] == a;
    if |a| >= 3 {
      assert a[|a| - 3] != ':';
    }
  }

  /** A clock of three fields reads back as hours, minutes and seconds. */
  lemma {:induction false} ParseThreeFields(a: string, b: string, c: string)
    requires AllDigits(a) && AllDigits(b) && AllDigits(c) && |b| == 2 && |c| == 2
    ensures ParseClock(a + ":" + b + ":" + c) == Some(Decimal(a) * 3600 + Decimal(b) * 60 + Decimal(c))
  {
    var rest := a + ":" + b;
    var s := rest + ":" + c;
    assert s == a + ":" + b + ":" + c;
    assert s[|s| - 3] == ':' && s[|s| - 2..] == c;
    assert EndsInField(s);
    assert s[..|s| - 3] == rest;
    assert rest[|rest| - 3] == ':' && rest[|rest| - 2..] == b;
    assert EndsInField(rest);
    assert rest[..|rest| - 3] == a;
  }

  /** The string `formatTime` writes for a positive duration, from its
      whole seconds. */
  lemma FormatTimeShape(x: real)
    requires x > 0.0
    ensures var t := x.Floor;
      var h, m, sec := t / 3600, t % 3600 / 60, t % 60;
      && (h > 0 ==> FormatTime(Finite(x)) == Digits(h) + ":" + Pad2(Digits(m)) + ":" + Pad2(Digits(sec)))
      && (h <= 0 ==> FormatTime(Finite(x)) == Digits(m) + ":" + Pad2(Digits(sec)))
  {
    FormatTimeFields(x);
    var t := x.Floor;
    var h, m, sec := t / 3600, t % 3600 / 60, t % 60;
    assert IntToString(m) == Digits(m) && IntToString(sec) == Digits(sec);
    if h > 0 {
      assert IntToString(h) == Digits(h);
    }
  }

  /** `M:SS` reads back as `60 M + SS`, here `t`. */
  lemma {:induction false} ParseMinutes(t: int, m: nat, sec: nat)
    requires sec < 60 && t == m * 60 + sec
    ensures ParseClock(Digits(m) + ":" + Pad2(Digits(sec))) == Some(t)
  {
    DigitsAreDigits(m);
    DigitsAreDigits(sec);
    DecimalDigits(m);
    DecimalPad2(sec);
    ParseTwoFields(Digits(m), Pad2(Digits(sec)));
  }

  /** `H:MM:SS` reads back as `3600 H + 60 MM + SS`, here `t`. */
  lemma {:induction false} ParseHours(t: int, h: nat, m: nat, sec: nat)
    requires m < 60 && sec < 60 && t == h * 3600 + m * 60 + sec
    ensures ParseClock(Digits(h) + ":" + Pad2(Digits(m)) + ":" + Pad2(Digits(sec))) == Some(t)
  {
    DigitsAreDigits(h);
    DigitsAreDigits(m);
    DigitsAreDigits(sec);
    DecimalDigits(h);
    DecimalPad2(m);
    DecimalPad2(sec);
    ParseThreeFields(Digits(h), Pad2(Digits(m)), Pad2(Digits(sec)));
  }

  /** Hours, minutes and seconds add back up to the whole seconds, and the
      last two are below 60. */
  lemma ClockSum(t: nat)
    ensures t == t / 3600 * 3600 + t % 3600 / 60 * 60 + t % 60
    ensures 0 <= t % 3600 / 60 < 60 && 0 <= t % 60 < 60
    ensures t / 3600 == 0 ==> t == t % 3600 / 60 * 60 + t % 60
  {
    var h, r := t / 3600, t % 3600;
    var m, q := r / 60, r % 60;
    assert t == 3600 * h + r && 0 <= r < 3600;
    assert r == 60 * m + q && 0 <= q < 60;
    assert m < 60;
    SixtyRemainder(60 * h + m, q);
    assert t == 60 * (60 * h + m) + q;
  }

  /** The remainder by 60 of `60 a + q` is `q`. */
  lemma SixtyRemainder(a: int, q: int)
    requires 0 <= q < 60
    ensures (60 * a + q) % 60 == q
  {
  }

  /** The clock written from the fields of `t` seconds reads back as `t`. */
  lemma {:induction false} ClockRoundTrip(t: nat)
    ensures var h, m, sec := t / 3600, t % 3600 / 60, t % 60;
      && (h > 0 ==> ParseClock(Digits(h) + ":" + Pad2(Digits(m)) + ":" + Pad2(Digits(sec))) == Some(t))
      && (h == 0 ==> ParseClock(Digits(m) + ":" + Pad2(Digits(sec))) == Some(t))
  {
    ClockSum(t);
    var h, m, sec := t / 3600, t % 3600 / 60, t % 60;
    if h > 0 {
      ParseHours(t, h, m, sec);
    } else {
      ParseMinutes(t, m, sec);
    }
  }

  /** What `formatTime` writes for a positive duration reads back as its
      whole number of seconds. */
  lemma FormatTimeRoundTrip(x: real)
    requires x > 0.0
    ensures ParseClock(FormatTime(Finite(x))) == Some(x.Floor)
  {
    FormatTimeShape(x);
    ClockRoundTrip(x.Floor);
  }

  // ---------------------------------------------------------------------
  // The typewriter

  const TypewriterStrings: seq<string> :=
    ["Audio.", "Podcast.", "Youtube Video.", "Meeting.", "Film.",
     "Presentation.", "Interview.", "Lecture.", "Conference.", "Webinar."]
  /** Milliseconds the typed word stays before deletion starts. */
  const HoldDelay := 4000
  /** Milliseconds per typed or deleted character. */
  const TypeSpeed := 50

  /** The three state variables of the effect. */
  datatype Typewriter = Typewriter(text: string, deleting: bool, index: int)

  /** `s.substring(0, k)`: `k` clamped to `[0, |s|]`. */
  function Prefix(s: string, k: int): (r: string)
    ensures r <= s
    ensures 0 <= k <= |s| ==> |r| == k
  {
    if k <= 0 then [] else if k >= |s| then s else s[..k]
  }

  /** The state the effect is in over the word list `words`: a valid index
      and a prefix of its word. */
  predicate Shown(words: seq<string>, t: Typewriter) {
    0 <= t.index < |words| && t.text <= words[t.index]
  }

  /** One run of the effect over `words` (the page passes
      `TypewriterStrings`): the next state and the delay in milliseconds
      after which it is reached (0 when the setters run immediately). */
  function Step(words: seq<string>, t: Typewriter): (r: (Typewriter, nat))
    requires 0 <= t.index < |words|
    ensures Shown(words, r.0)
    ensures !t.deleting && t.text == words[t.index] ==> r == (t.(deleting := true), HoldDelay)
    ensures t.deleting && t.text == [] ==> r == (Typewriter([], false, (t.index + 1) % |words|), 0)
    ensures !(!t.deleting && t.text == words[t.index]) && !(t.deleting && t.text == []) ==>
      && r.1 == TypeSpeed && r.0.index == t.index && r.0.deleting == t.deleting
      && (Shown(words, t) && !t.deleting ==> |r.0.text| == |t.text| + 1)
      && (Shown(words, t) && t.deleting ==> |r.0.text| == |t.text| - 1)
  {
    var current := words[t.index];
    if !t.deleting && t.text == current then
      (t.(deleting := true), HoldDelay)
    else if t.deleting && t.text == [] then
      (Typewriter([], false, (t.index + 1) % |words|), 0)
    else if t.deleting then
      (t.(text := Prefix(current, |t.text| - 1)), TypeSpeed)
    else
      (t.(text := Prefix(current, |t.text| + 1)), TypeSpeed)
  }

  /** `n` steps from `t`: the state reached and the total delay. */
  function Run(words: seq<string>, t: Typewriter, n: nat): (r: (Typewriter, nat))
    requires 0 <= t.index < |words|
    ensures 0 <= r.0.index < |words|
    decreases n
  {
    if n == 0 then (t, 0)
    else
      var first := Step(words, t);
      var rest := Run(words, first.0, n - 1);
      (rest.0, first.1 + rest.1)
  }

  /** Running `a` steps and then `b` steps is running `a + b` steps. */
  lemma {:induction false} RunAppend(words: seq<string>, t: Typewriter, a: nat, b: nat)
    requires 0 <= t.index < |words|
    ensures var mid := Run(words, t, a);
      Run(words, t, a + b) == (Run(words, mid.0, b).0, mid.1 + Run(words, mid.0, b).1)
    decreases a
  {
    if a > 0 {
      RunAppend(words, Step(words, t).0, a - 1, b);
    }
  }

  /** Typing from the first `k` characters reaches the whole word, one
      character per 50 ms. */
  lemma {:induction false} Typing(words: seq<string>, i: nat, k: nat)
    requires i < |words| && k <= |words[i]|
    ensures var s := words[i];
      Run(words, Typewriter(s[..k], false, i), |s| - k) == (Typewriter(s, false, i), TypeSpeed * (|s| - k))
    decreases |words[i]| - k
  {
    var s := words[i];
    if k < |s| {
      assert |s[..k]| == k;
      assert s[..k] != s;
      assert Prefix(s, k + 1) == s[..k + 1];
      assert Step(words, Typewriter(s[..k], false, i)) == (Typewriter(s[..k + 1], false, i), TypeSpeed);
      Typing(words, i, k + 1);
    } else {
      assert s[..k] == s;
    }
  }

  /** Deleting from the first `k` characters reaches the empty text, one
      character per 50 ms. */
  lemma {:induction false} Deleting(words: seq<string>, i: nat, k: nat)
    requires i < |words| && k <= |words[i]|
    ensures var s := words[i];
      Run(words, Typewriter(s[..k], true, i), k) == (Typewriter([], true, i), TypeSpeed * k)
  {
    var s := words[i];
    if k > 0 {
      assert Step(words, Typewriter(s[..k], true, i)) == (Typewriter(s[..k - 1], true, i), TypeSpeed);
      Deleting(words, i, k - 1);
    }
  }

  /** One full cycle: from the empty text on word `i`, after `2 |s| + 2`
      steps the animation is on the empty text of the next word, having
      typed it, held it for 4 s and deleted it. */
  lemma Cycle(words: seq<string>, i: nat)
    requires i < |words|
    ensures var s := words[i];
      Run(words, Typewriter([], false, i), 2 * |s| + 2)
      == (Typewriter([], false, (i + 1) % |words|), 2 * TypeSpeed * |s| + HoldDelay)
  {
    var s := words[i];
    var start := Typewriter([], false, i);
    assert s[..0] == [];
    Typing(words, i, 0);
    var typed := Typewriter(s, false, i);
    assert Run(words, typed, 1) == (Typewriter(s, true, i), HoldDelay);
    assert s[..|s|] == s;
    Deleting(words, i, |s|);
    var deleted := Typewriter([], true, i);
    assert Run(words, deleted, 1) == (Typewriter([], false, (i + 1) % |words|), 0);
    RunAppend(words, start, |s|, 1);
    RunAppend(words, start, |s| + 1, |s|);
    RunAppend(words, start, 2 * |s| + 1, 1);
  }

  /** On the landing page the animation moves from each of the ten words to
      the next, and from the last back to the first. */
  lemma PageCycle(i: nat)
    requires i < |TypewriterStrings|
    ensures var s := TypewriterStrings[i];
      Run(TypewriterStrings, Typewriter([], false, i), 2 * |s| + 2)
      == (Typewriter([], false, if i == 9 then 0 else i + 1), 2 * TypeSpeed * |s| + HoldDelay)
  {
    Cycle(TypewriterStrings, i);
  }
}
