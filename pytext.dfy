/** The three Python builtins the dot-list codec relies on: `str(n)` for an
    integer, `s.split()` with no separator, and `int(token)` in base 10. */
module PyText {
  import opened Wrappers

  /** `c.isspace()`: the characters `str.split()` treats as separators. */
  predicate IsSpace(c: char) {
    || c == ' '
    || ('\t' <= c <= '\r')
    || ('\U{1C}' <= c <= '\U{1F}')
    || c == '\U{85}' || c == '\U{A0}' || c == '\U{1680}'
    || ('\U{2000}' <= c <= '\U{200A}')
    || c == '\U{2028}' || c == '\U{2029}' || c == '\U{202F}'
    || c == '\U{205F}' || c == '\U{3000}'
  }

  predicate IsDigit(c: char) {
    '0' <= c <= '9'
  }

  /** No character of `t` is white space. */
  predicate NoSpace(t: string) {
    forall i :: 0 <= i < |t| ==> !IsSpace(t[i])
  }

  /** A field that `split()` can return: non-empty, without white space. */
  predicate IsToken(t: string) {
    |t| > 0 && NoSpace(t)
  }

  // ---------------------------------------------------------------------
  // str(n)

  function DigitChar(d: nat): (c: char)
    requires d < 10
    ensures IsDigit(c) && DigitValue(c) == d
  {
    ('0' as int + d) as char
  }

  function DigitValue(c: char): nat
    requires IsDigit(c)
  {
    c as int - '0' as int
  }

  /** Decimal digits of `n`, most significant first, no leading zero. */
  function NatToStr(n: nat): (r: string)
    ensures |r| > 0
    ensures forall i :: 0 <= i < |r| ==> IsDigit(r[i])
    ensures |r| > 1 ==> r[0] != '0'
    decreases n
  {
    if n < 10 then [DigitChar(n)] else NatToStr(n / 10) + [DigitChar(n % 10)]
  }

  /** `str(x)` for a Python int: a minus sign for negatives, then the digits. */
  function IntToStr(x: int): (r: string)
    ensures IsToken(r)
    ensures IsDigit(r[|r| - 1])
    ensures r[0] == '-' || IsDigit(r[0])
  {
    if x < 0 then "-" + NatToStr(-x) else NatToStr(x)
  }

  // ---------------------------------------------------------------------
  // s.split()

  /** Scans `s`, with `cur` the field read so far; a run of white space ends
      a field and white space at either end yields no empty field. */
  function SplitFrom(s: string, cur: string): (r: seq<string>)
    requires NoSpace(cur)
    ensures forall i :: 0 <= i < |r| ==> IsToken(r[i])
    decreases |s|
  {
    if s == [] then
      (if cur == [] then [] else [cur])
    else if IsSpace(s[0]) then
      (if cur == [] then SplitFrom(s[1..], []) else [cur] + SplitFrom(s[1..], []))
    else
      SplitFrom(s[1..], cur + [s[0]])
  }

  /** `s.split()`: the maximal runs of non-white-space characters, in order. */
  function Split(s: string): (r: seq<string>)
    ensures forall i :: 0 <= i < |r| ==> IsToken(r[i])
  {
    SplitFrom(s, [])
  }

  /** `" ".join(ts)`. */
  function Join(ts: seq<string>): string {
    if ts == [] then "" else if |ts| == 1 then ts[0] else ts[0] + " " + Join(ts[1..])
  }

  lemma {:induction false} JoinSnoc(ts: seq<string>, t: string)
    requires ts != []
    ensures Join(ts + [t]) == Join(ts) + " " + t
    decreases |ts|
  {
    if |ts| == 1 {
      assert ts + [t] == [ts[0], t];
    } else {
      assert (ts + [t])[1..] == ts[1..] + [t];
      JoinSnoc(ts[1..], t);
    }
  }

  /** Characters without white space only extend the field being read. */
  lemma {:induction false} SplitFromNoSpace(t: string, s: string, cur: string)
    requires NoSpace(t) && NoSpace(cur)
    ensures SplitFrom(t + s, cur) == SplitFrom(s, cur + t)
    decreases |t|
  {
    if t == [] {
      assert t + s == s && cur + t == cur;
    } else {
      assert (t + s)[0] == t[0] && (t + s)[1..] == t[1..] + s;
      assert cur + t == (cur + [t[0]]) + t[1..];
      SplitFromNoSpace(t[1..], s, cur + [t[0]]);
    }
  }

  /** Splitting space-joined tokens, with or without one trailing space, gives
      the tokens back. */
  lemma {:induction false} SplitJoin(ts: seq<string>, trailing: bool)
    requires forall i :: 0 <= i < |ts| ==> IsToken(ts[i])
    ensures Split(Join(ts) + (if trailing then " " else "")) == ts
    decreases |ts|
  {
    var tail := if trailing then " " else "";
    if ts == [] {
      if trailing {
        assert Join(ts) + tail == " ";
        assert IsSpace(' ') && " "[1..] == [];
        assert SplitFrom(" ", []) == SplitFrom([], []);
      } else {
        assert Join(ts) + tail == [];
      }
    } else if |ts| == 1 {
      SplitFromNoSpace(ts[0], tail, []);
      assert [] + ts[0] == ts[0];
      if trailing {
        assert tail[1..] == [];
      }
      assert Join(ts) + tail == ts[0] + tail;
    } else {
      var rest := " " + Join(ts[1..]) + tail;
      assert Join(ts) + tail == ts[0] + rest;
      SplitFromNoSpace(ts[0], rest, []);
      assert [] + ts[0] == ts[0];
      assert rest[1..] == Join(ts[1..]) + tail;
      SplitJoin(ts[1..], trailing);
      assert SplitFrom(rest, ts[0]) == [ts[0]] + ts[1..];
    }
  }

  // ---------------------------------------------------------------------
  // int(t)

  /** The white space `int()` strips: that of `str.isspace()` except the
      four separators U+001C..U+001F, which `int()` rejects. */
  predicate IntSpace(c: char) {
    IsSpace(c) && !('\U{1C}' <= c <= '\U{1F}')
  }

  /** White space removed from both ends, as `int()` does before parsing. */
  function Strip(t: string): (r: string)
    ensures |r| <= |t|
    decreases |t|
  {
    if t == [] then []
    else if IntSpace(t[0]) then Strip(t[1..])
    else if IntSpace(t[|t| - 1]) then Strip(t[..|t| - 1])
    else t
  }

  /** Value of a run of ASCII digits in which single underscores may separate
      two digits (Python 3.6 and later); `None` for anything else. */
  function ParseDigits(t: string): (r: Option<nat>)
    decreases |t|
  {
    if t == [] || !IsDigit(t[|t| - 1]) then None
    else if |t| == 1 then Some(DigitValue(t[0]))
    else
      var rest := t[..|t| - 1];
      var front := if rest[|rest| - 1] == '_' then rest[..|rest| - 1] else rest;
      match ParseDigits(front)
      case None => None
      case Some(v) => Some(10 * v + DigitValue(t[|t| - 1]))
  }

  /** `int(t)` in base 10: surrounding white space, then an optional sign and
      the digits; anything else raises ValueError, which carries `t`. */
  function ParseInt(t: string): (r: Result<int, string>)
    ensures r.Err? ==> r.error == t
  {
    var u := Strip(t);
    var signed := |u| > 0 && (u[0] == '-' || u[0] == '+');
    match ParseDigits(if signed then u[1..] else u)
    case None => Err(t)
    case Some(v) => Ok(if signed && u[0] == '-' then -(v as int) else v as int)
  }

  lemma {:induction false} ParseDigitsNatToStr(n: nat)
    ensures ParseDigits(NatToStr(n)) == Some(n)
    decreases n
  {
    if n >= 10 {
      var t := NatToStr(n);
      assert t[..|t| - 1] == NatToStr(n / 10);
      ParseDigitsNatToStr(n / 10);
    }
  }

  /** `int(str(x)) == x`. */
  lemma ParseIntToStr(x: int)
    ensures ParseInt(IntToStr(x)) == Ok(x)
  {
    var t := IntToStr(x);
    assert Strip(t) == t;
    if x < 0 {
      assert t[1..] == NatToStr(-x);
      ParseDigitsNatToStr(-x);
    } else {
      ParseDigitsNatToStr(x);
    }
  }
}
