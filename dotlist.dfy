/** The Journal's `dotlist` entry: the board's cell values written as decimal
    integers separated by single spaces (`write_file`), and read back with
    `split()` and `int()` (`_restore`). */
module DotList {
  import opened Wrappers
  import opened PyText

  /** `[str(d) for d in ds]`. */
  function Strs(ds: seq<int>): (r: seq<string>)
    ensures |r| == |ds|
    ensures forall i :: 0 <= i < |r| ==> r[i] == IntToStr(ds[i])
  {
    if ds == [] then [] else [IntToStr(ds[0])] + Strs(ds[1..])
  }

  /** `ds.index(v)`: the position of the first occurrence of `v`. */
  function FirstIndex(ds: seq<int>, v: int): (k: nat)
    requires v in ds
    ensures k < |ds| && ds[k] == v && v !in ds[..k]
  {
    if ds[0] == v then 0
    else
      var k := 1 + FirstIndex(ds[1..], v);
      assert ds[..k] == [ds[0]] + ds[1..][..k - 1];
      k
  }

  /** The last value of `ds` also occurs at an earlier position. */
  predicate RepeatsLast(ds: seq<int>) {
    |ds| > 0 && ds[|ds| - 1] in ds[..|ds| - 1]
  }

  /** What `write_file` stores: the values joined by single spaces, and one
      space more at the end exactly when the last value is a repeat. */
  function Encoding(ds: seq<int>): string {
    Join(Strs(ds)) + (if RepeatsLast(ds) then " " else "")
  }

  /** The guard of `write_file`, `ds.index(d) < len(ds) - 1` for the value at
      position `k`, holds before the last position and, at the last, exactly
      when that value is a repeat. */
  lemma IndexGuard(ds: seq<int>, k: nat)
    requires k < |ds|
    ensures (FirstIndex(ds, ds[k]) < |ds| - 1) <==> (k < |ds| - 1 || RepeatsLast(ds))
  {
    var f := FirstIndex(ds, ds[k]);
    if k == |ds| - 1 && RepeatsLast(ds) {
      var j :| 0 <= j < |ds| - 1 && ds[..|ds| - 1][j] == ds[k];
      assert ds[j] == ds[k];
      assert f <= j;
    }
    if f < |ds| - 1 && k == |ds| - 1 {
      assert ds[..|ds| - 1][f] == ds[k];
    }
  }

  /** Adding the value at position `k` to the text for the first `k` values. */
  lemma JoinStep(ds: seq<int>, k: nat)
    requires k < |ds|
    ensures Join(Strs(ds[..k + 1])) ==
            (if k == 0 then "" else Join(Strs(ds[..k])) + " ") + IntToStr(ds[k])
  {
    var front, t := Strs(ds[..k]), IntToStr(ds[k]);
    assert ds[..k + 1] == ds[..k] + [ds[k]];
    StrsSnoc(ds[..k], ds[k]);
    if k > 0 {
      JoinSnoc(front, t);
    } else {
      assert front + [t] == [t];
    }
  }

  lemma StrsSnoc(ds: seq<int>, d: int)
    ensures Strs(ds + [d]) == Strs(ds) + [IntToStr(d)]
  {
    var l, r := Strs(ds + [d]), Strs(ds) + [IntToStr(d)];
    assert |l| == |r|;
    forall i | 0 <= i < |l| ensures l[i] == r[i] {
      if i < |ds| {
        assert (ds + [d])[i] == ds[i];
      }
    }
  }

  /** The text `write_file` has built after the first `k` values. */
  function TextAfter(ds: seq<int>, k: nat): string
    requires k <= |ds|
  {
    if k == 0 then "" else Join(Strs(ds[..k])) + (if k < |ds| || RepeatsLast(ds) then " " else "")
  }

  /** The loop of `write_file` that builds `metadata['dotlist']`, one value
      at a time. */
  method EncodeDotList(dotList: seq<int>) returns (text: string)
    ensures text == Encoding(dotList)
  {
    var n := |dotList|;
    text := "";
    for k := 0 to n
      invariant text == TextAfter(dotList, k)
    {
      var dot := dotList[k];
      JoinStep(dotList, k);
      IndexGuard(dotList, k);
      text := text + IntToStr(dot);
      if FirstIndex(dotList, dot) < n - 1 {
        text := text + " ";
      }
    }
    assert dotList[..n] == dotList;
  }

  /** Appending `int(t)` for each token in order, as `_restore` does; the first
      token `int()` rejects raises ValueError, which carries that token. */
  function ParseAll(tokens: seq<string>): (r: Result<seq<int>, string>)
    ensures r.Ok? <==> forall i :: 0 <= i < |tokens| ==> ParseInt(tokens[i]).Ok?
    ensures r.Ok? ==> |r.value| == |tokens|
    ensures r.Ok? ==> forall i :: 0 <= i < |tokens| ==> ParseInt(tokens[i]) == Ok(r.value[i])
    ensures r.Err? ==> exists i :: 0 <= i < |tokens| && r.error == tokens[i]
                                   && ParseInt(tokens[i]).Err?
                                   && forall j :: 0 <= j < i ==> ParseInt(tokens[j]).Ok?
  {
    if tokens == [] then Ok([])
    else
      match ParseInt(tokens[0])
      case Err(e) => Err(e)
      case Ok(v) =>
        match ParseAll(tokens[1..])
        case Err(e) =>
          assert forall j :: 1 <= j < |tokens| ==> tokens[1..][j - 1] == tokens[j];
          Err(e)
        case Ok(vs) => Ok([v] + vs)
  }

  /** What `_restore` makes of a stored board text. */
  function Decoding(text: string): Result<seq<int>, string> {
    ParseAll(Split(text))
  }

  /** The loop of `_restore` that rebuilds `dot_list` from the stored text:
      split on white space, then `int()` of each token, appended in order. */
  method ParseDotList(text: string) returns (r: Result<seq<int>, string>)
    ensures r == Decoding(text)
  {
    var dots := Split(text);
    var dotList: seq<int> := [];
    var k := 0;
    while k < |dots|
      invariant 0 <= k <= |dots|
      invariant |dotList| == k
      invariant forall i :: 0 <= i < k ==> ParseInt(dots[i]) == Ok(dotList[i])
    {
      var v := ParseInt(dots[k]);
      if v.Err? {
        r := Err(v.error);
        var all := ParseAll(dots);
        assert all.Err?;
        var i :| 0 <= i < |dots| && all.error == dots[i] && ParseInt(dots[i]).Err?
                 && forall j :: 0 <= j < i ==> ParseInt(dots[j]).Ok?;
        assert i == k;
        return;
      }
      dotList := dotList + [v.value];
      k := k + 1;
    }
    var all := ParseAll(dots);
    assert all.Ok? && all.value == dotList;
    r := Ok(dotList);
  }

  // ---------------------------------------------------------------------
  // Properties of the encoding

  /** An empty board is stored as the empty text; otherwise the text starts
      with the first value's digits or its minus sign, never with a space. */
  lemma EncodingStart(ds: seq<int>)
    ensures ds == [] <==> Encoding(ds) == ""
    ensures ds != [] ==> Encoding(ds)[0] != ' ' && Encoding(ds)[..|IntToStr(ds[0])|] == IntToStr(ds[0])
  {
    if ds != [] {
      var s := Strs(ds);
      if |ds| > 1 {
        assert Join(s) == s[0] + " " + Join(s[1..]);
      }
    }
  }

  /** The text ends in a space exactly when the last value already occurred
      earlier; a unique last value is followed by nothing. */
  lemma TrailingSpace(ds: seq<int>)
    requires ds != []
    ensures Encoding(ds)[|Encoding(ds)| - 1] == ' ' <==> RepeatsLast(ds)
    ensures !RepeatsLast(ds) ==> Encoding(ds) == Join(Strs(ds))
  {
    var n := |ds|;
    var last := IntToStr(ds[n - 1]);
    var front := if n == 1 then "" else Join(Strs(ds[..n - 1])) + " ";
    JoinStep(ds, n - 1);
    assert ds[..n] == ds;
    var j := Join(Strs(ds));
    assert j == front + last;
    assert j[|j| - 1] == last[|last| - 1];
    assert IsDigit(j[|j| - 1]);
  }

  /** Splitting the stored text gives one token per cell, `str` of that cell,
      whether or not the trailing space is present. */
  lemma SplitEncoding(ds: seq<int>)
    ensures Split(Encoding(ds)) == Strs(ds)
    ensures |Split(Encoding(ds))| == |ds|
  {
    SplitJoin(Strs(ds), RepeatsLast(ds));
  }

  /** Round trip: `_restore` gives back exactly the list `write_file` stored. */
  lemma RoundTrip(ds: seq<int>)
    ensures Decoding(Encoding(ds)) == Ok(ds)
  {
    SplitEncoding(ds);
    var tokens := Strs(ds);
    forall i | 0 <= i < |tokens|
      ensures ParseInt(tokens[i]) == Ok(ds[i])
    {
      ParseIntToStr(ds[i]);
    }
    var r := ParseAll(tokens);
    assert r.value == ds;
  }
}
