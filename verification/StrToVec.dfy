/**
  Splitting the environment variables that list target functions: the pieces
  between delimiters, without the empty ones.
 */
module StrToVec {
  import opened Common

  // ----- the two searches, as std::string offers them -----

  /** The first place from `pos` on whose character is not the delimiter. */
  function FindFirstNotOf(s: string, delim: char, pos: nat): (r: Option<nat>)
    ensures r.Some? ==> pos <= r.value < |s| && s[r.value] != delim && forall k :: pos <= k < r.value ==> s[k] == delim
    ensures r.None? ==> forall k :: pos <= k < |s| ==> s[k] == delim
    decreases |s| - pos
  {
    if pos >= |s| then None else if s[pos] != delim then Some(pos) else FindFirstNotOf(s, delim, pos + 1)
  }

  /** The first place from `pos` on that holds the delimiter. */
  function Find(s: string, delim: char, pos: nat): (r: Option<nat>)
    ensures r.Some? ==> pos <= r.value < |s| && s[r.value] == delim && forall k :: pos <= k < r.value ==> s[k] != delim
    ensures r.None? ==> forall k :: pos <= k < |s| ==> s[k] != delim
    decreases |s| - pos
  {
    if pos >= |s| then None else if s[pos] == delim then Some(pos) else Find(s, delim, pos + 1)
  }

  // ----- what splitting is to give -----

  /** The characters from `a` up to `b` are a run without the delimiter that cannot be made longer. */
  predicate IsRun(s: string, delim: char, a: nat, b: nat) {
    && a < b <= |s|
    && (forall k :: a <= k < b ==> s[k] != delim)
    && (a == 0 || s[a - 1] == delim)
    && (b == |s| || s[b] == delim)
  }

  /** The number of characters before the first delimiter. */
  function RunLength(s: string, delim: char): (n: nat)
    ensures n <= |s| && (forall k :: 0 <= k < n ==> s[k] != delim) && (n < |s| ==> s[n] == delim)
  {
    if s == "" || s[0] == delim then 0 else 1 + RunLength(s[1..], delim)
  }

  function Tokens(s: string, delim: char): seq<string> {
    if s == "" then []
    else if s[0] == delim then Tokens(s[1..], delim)
    else
      var n := RunLength(s, delim);
      [s[..n]] + Tokens(s[n..], delim)
  }

  /** A list of runs: in order, each maximal, and none left out from `from` on. */
  ghost predicate AllRuns(s: string, delim: char, from: nat, runs: seq<(nat, nat)>) {
    && (forall j :: 0 <= j < |runs| ==> from <= runs[j].0 && IsRun(s, delim, runs[j].0, runs[j].1))
    && (forall i, j :: 0 <= i < j < |runs| ==> runs[i].1 < runs[j].0)
    && (forall a: nat, b: nat :: from <= a && IsRun(s, delim, a, b) ==> (a, b) in runs)
  }

  ghost predicate Cut(s: string, runs: seq<(nat, nat)>, tokens: seq<string>) {
    && |tokens| == |runs|
    && forall j :: 0 <= j < |runs| ==> runs[j].0 <= runs[j].1 <= |s| && tokens[j] == s[runs[j].0..runs[j].1]
  }

  lemma RunLengthIs(s: string, delim: char, n: nat)
    requires n <= |s| && (forall k :: 0 <= k < n ==> s[k] != delim) && (n < |s| ==> s[n] == delim)
    ensures RunLength(s, delim) == n
  {
  }

  /** A run that begins inside another is that run. */
  lemma RunsMeet(s: string, delim: char, a: nat, b: nat, c: nat, d: nat)
    requires IsRun(s, delim, a, b) && IsRun(s, delim, c, d) && a <= c < b
    ensures a == c && b == d
  {
  }

  lemma RunsFromNext(s: string, delim: char, from: nat, runs: seq<(nat, nat)>)
    requires from < |s| && s[from] == delim && AllRuns(s, delim, from + 1, runs)
    ensures AllRuns(s, delim, from, runs)
  {
  }

  lemma RunsCons(s: string, delim: char, from: nat, end: nat, more: seq<(nat, nat)>)
    requires IsRun(s, delim, from, end) && AllRuns(s, delim, end, more)
    ensures AllRuns(s, delim, from, [(from, end)] + more)
  {
    var runs := [(from, end)] + more;
    forall j | 0 <= j < |more| ensures end < more[j].0 {
      assert IsRun(s, delim, more[j].0, more[j].1);
    }
    forall a: nat, b: nat | from <= a && IsRun(s, delim, a, b) ensures (a, b) in runs {
      if a < end {
        RunsMeet(s, delim, from, end, a, b);
        assert runs[0] == (a, b);
      }
    }
  }

  /** The run that a string has at a place where one can begin, cut off. */
  lemma FirstRun(s: string, delim: char, from: nat) returns (end: nat)
    requires from < |s| && s[from] != delim && (from == 0 || s[from - 1] == delim)
    ensures IsRun(s, delim, from, end)
    ensures Tokens(s[from..], delim) == [s[from..end]] + Tokens(s[end..], delim)
  {
    var rest := s[from..];
    var n := RunLength(rest, delim);
    end := from + n;
    assert forall k :: from <= k < end ==> s[k] == rest[k - from];
    assert end < |s| ==> s[end] == rest[n];
    assert rest[n..] == s[end..] && rest[..n] == s[from..end];
  }

  lemma CutCons(s: string, from: nat, end: nat, more: seq<(nat, nat)>, rest: seq<string>)
    requires from <= end <= |s| && Cut(s, more, rest)
    ensures Cut(s, [(from, end)] + more, [s[from..end]] + rest)
  {
  }

  /** The tokens are exactly the maximal delimiter-free runs, in order. */
  lemma {:induction false} TokensAreRuns(s: string, delim: char, from: nat) returns (runs: seq<(nat, nat)>)
    requires from <= |s| && (from == 0 || from == |s| || s[from - 1] == delim || s[from] == delim)
    ensures AllRuns(s, delim, from, runs) && Cut(s, runs, Tokens(s[from..], delim))
    decreases |s| - from
  {
    if from == |s| {
      runs := [];
    } else if s[from] == delim {
      assert s[from..][1..] == s[from + 1..];
      runs := TokensAreRuns(s, delim, from + 1);
      RunsFromNext(s, delim, from, runs);
    } else {
      var end := FirstRun(s, delim, from);
      var more := TokensAreRuns(s, delim, end);
      RunsCons(s, delim, from, end, more);
      CutCons(s, from, end, more, Tokens(s[end..], delim));
      runs := [(from, end)] + more;
    }
  }

  /** Delimiters at the front do not matter. */
  lemma {:induction false} SkipDelims(s: string, delim: char, pos: nat)
    requires pos <= |s|
    ensures var start := FindFirstNotOf(s, delim, pos);
            Tokens(s[pos..], delim) == if start.None? then [] else Tokens(s[start.value..], delim)
    decreases |s| - pos
  {
    if pos < |s| && s[pos] == delim {
      assert s[pos..][1..] == s[pos + 1..];
      SkipDelims(s, delim, pos + 1);
    }
  }

  lemma TakeRun(s: string, delim: char, start: nat)
    requires start < |s| && s[start] != delim
    ensures var end := Find(s, delim, start);
            var stop := if end.None? then |s| else end.value;
            Tokens(s[start..], delim) == [s[start..stop]] + Tokens(s[stop..], delim)
  {
    var end := Find(s, delim, start);
    var stop := if end.None? then |s| else end.value;
    RunLengthIs(s[start..], delim, stop - start);
    assert s[start..][..stop - start] == s[start..stop] && s[start..][stop - start..] == s[stop..];
  }

  /** The tokens still to come when the next one starts at `start`. */
  ghost function Rest(s: string, delim: char, start: Option<nat>): seq<string> {
    if start.None? || start.value > |s| then [] else Tokens(s[start.value..], delim)
  }

  /** The loop over the string; after a token that no delimiter ends, none can start. */
  method Split(str: string, delim: char) returns (ret: seq<string>)
    ensures ret == Tokens(str, delim)
  {
    ret := [];
    var start := FindFirstNotOf(str, delim, 0);
    SkipDelims(str, delim, 0);
    assert str[0..] == str;
    while start.Some?
      invariant start.Some? ==> start.value < |str| && str[start.value] != delim
      invariant ret + Rest(str, delim, start) == Tokens(str, delim)
      decreases if start.Some? then 1 + |str| - start.value else 0
    {
      ghost var before := ret;
      ghost var rest := Rest(str, delim, start);
      TakeRun(str, delim, start.value);
      var end := Find(str, delim, start.value);
      var token;
      if end.Some? {
        token := str[start.value..end.value];
        SkipDelims(str, delim, end.value);
        start := FindFirstNotOf(str, delim, end.value);
      } else {
        token := str[start.value..];
        assert str[|str|..] == "" && str[start.value..|str|] == token;
        start := None;
      }
      assert rest == [token] + Rest(str, delim, start);
      ret := ret + [token];
      Regroup(before, [token], Rest(str, delim, start));
    }
  }

  lemma Regroup<T>(a: seq<T>, b: seq<T>, c: seq<T>)
    ensures a + b + c == a + (b + c)
  {
  }

  // ----- joining and splitting -----

  function Join(tokens: seq<string>, delim: char): string {
    if |tokens| == 0 then ""
    else if |tokens| == 1 then tokens[0]
    else tokens[0] + ([delim] + Join(tokens[1..], delim))
  }

  /** Splitting the join of non-empty tokens without the delimiter gives the tokens back. */
  lemma {:induction false} SplitJoin(tokens: seq<string>, delim: char)
    requires forall t :: t in tokens ==> t != "" && delim !in t
    ensures Tokens(Join(tokens, delim), delim) == tokens
  {
    if |tokens| == 0 {
    } else {
      var t, s := tokens[0], Join(tokens, delim);
      assert t in tokens && t[0] in t;
      forall k | 0 <= k < |t| ensures s[k] == t[k] && s[k] in t {
      }
      RunLengthIs(s, delim, |t|);
      assert s[..|t|] == t;
      if |tokens| == 1 {
        assert Tokens(s[|t|..], delim) == [];
      } else {
        var rest := Join(tokens[1..], delim);
        assert s[|t|..] == [delim] + rest;
        assert s[|t|..][1..] == rest;
        forall u | u in tokens[1..] ensures u in tokens {
        }
        SplitJoin(tokens[1..], delim);
        assert [t] + tokens[1..] == tokens;
      }
    }
  }
}
