/** Splitting a stream into lines at a newline symbol. */
module Lines {

  /** Index of the first newline, or the length if there is none. */
  function Find<T(==)>(s: seq<T>, nl: T): (n: nat)
    ensures n <= |s| && forall i :: 0 <= i < n ==> s[i] != nl
    ensures n < |s| ==> s[n] == nl
  {
    if s == [] || s[0] == nl then 0 else 1 + Find(s[1..], nl)
  }

  lemma FindIs<T>(s: seq<T>, nl: T, n: nat)
    requires n <= |s| && nl !in s[..n] && (n < |s| ==> s[n] == nl)
    ensures Find(s, nl) == n
  {
    var m := Find(s, nl);
    forall i | 0 <= i < n
      ensures s[i] != nl
    {
      assert s[..n][i] == s[i];
    }
    forall i | 0 <= i < m
      ensures s[i] != nl
    {
      assert s[..m][i] == s[i];
    }
  }

  /** The terminated lines, without their newlines. */
  function Split<T(==)>(s: seq<T>, nl: T): seq<seq<T>> {
    var n := Find(s, nl);
    if n == |s| then [] else [s[..n]] + Split(s[n + 1..], nl)
  }

  /** What follows the last newline. */
  function Tail<T(==)>(s: seq<T>, nl: T): seq<T> {
    var n := Find(s, nl);
    if n == |s| then s else Tail(s[n + 1..], nl)
  }

  lemma {:induction false} TailHasNoNewline<T>(s: seq<T>, nl: T)
    ensures nl !in Tail(s, nl) && |Tail(s, nl)| <= |s|
  {
    var n := Find(s, nl);
    if n < |s| {
      TailHasNoNewline(s[n + 1..], nl);
    } else {
      assert s[..n] == s;
    }
  }

  function Join<T>(lines: seq<seq<T>>, tail: seq<T>, nl: T): seq<T> {
    if lines == [] then tail else lines[0] + [nl] + Join(lines[1..], tail, nl)
  }

  lemma JoinCons<T>(line: seq<T>, lines: seq<seq<T>>, tail: seq<T>, nl: T)
    ensures Join([line] + lines, tail, nl) == line + [nl] + Join(lines, tail, nl)
  {
    assert ([line] + lines)[1..] == lines;
  }

  lemma SplitFirst<T>(s: seq<T>, nl: T, n: nat, rest: seq<T>)
    requires n == Find(s, nl) < |s| && rest == s[n + 1..]
    ensures Split(s, nl) == [s[..n]] + Split(rest, nl) && Tail(s, nl) == Tail(rest, nl)
  {
  }

  lemma CutAt<T>(s: seq<T>, n: nat, nl: T)
    requires n < |s| && s[n] == nl
    ensures s == s[..n] + [nl] + s[n + 1..]
  {
  }

  /** Splitting loses nothing. */
  lemma {:induction false} JoinSplit<T>(s: seq<T>, nl: T)
    ensures Join(Split(s, nl), Tail(s, nl), nl) == s
    decreases |s|
  {
    var n := Find(s, nl);
    if n == |s| {
    } else {
      var rest := s[n + 1..];
      JoinSplit(rest, nl);
      SplitFirst(s, nl, n, rest);
      JoinCons(s[..n], Split(rest, nl), Tail(rest, nl), nl);
      CutAt(s, n, nl);
    }
  }

  /** A newline-free tail is all there is to the lines that are joined. */
  lemma {:induction false} SplitJoin<T>(lines: seq<seq<T>>, tail: seq<T>, nl: T)
    requires nl !in tail && forall i :: 0 <= i < |lines| ==> nl !in lines[i]
    ensures Split(Join(lines, tail, nl), nl) == lines && Tail(Join(lines, tail, nl), nl) == tail
  {
    var s := Join(lines, tail, nl);
    if lines == [] {
      assert s[..|s|] == s;
      FindIs(s, nl, |s|);
    } else {
      var n := |lines[0]|;
      assert s[..n] == lines[0] && s[n + 1..] == Join(lines[1..], tail, nl);
      FindIs(s, nl, n);
      SplitJoin(lines[1..], tail, nl);
    }
  }

  lemma FindAppend<T>(s: seq<T>, more: seq<T>, nl: T)
    requires Find(s, nl) < |s|
    ensures Find(s + more, nl) == Find(s, nl)
  {
    var n := Find(s, nl);
    var all := s + more;
    assert all[n] == nl && forall i :: 0 <= i < n ==> all[i] == s[i];
  }

  lemma FirstLine<T>(s: seq<T>, more: seq<T>, nl: T, n: nat, rest: seq<T>)
    requires n == Find(s, nl) < |s| && rest == s[n + 1..]
    ensures Find(s + more, nl) == n
    ensures Split(s + more, nl) == [s[..n]] + Split(rest + more, nl) && Tail(s + more, nl) == Tail(rest + more, nl)
  {
    var all := s + more;
    assert all[..n] == s[..n] && all[n + 1..] == rest + more;
    FindAppend(s, more, nl);
    SplitFirst(all, nl, n, rest + more);
  }

  lemma ConsConcat<T>(x: T, a: seq<T>, b: seq<T>)
    ensures [x] + (a + b) == ([x] + a) + b
  {
  }

  /** Reading in pieces: the lines so far, then those of the tail continued. */
  lemma {:induction false} SplitAppend<T>(s: seq<T>, more: seq<T>, nl: T)
    ensures Split(s + more, nl) == Split(s, nl) + Split(Tail(s, nl) + more, nl)
    ensures Tail(s + more, nl) == Tail(Tail(s, nl) + more, nl)
    decreases |s|
  {
    var n := Find(s, nl);
    if n < |s| {
      var rest := s[n + 1..];
      SplitAppend(rest, more, nl);
      SplitFirst(s, nl, n, rest);
      FirstLine(s, more, nl, n, rest);
      ConsConcat(s[..n], Split(rest, nl), Split(Tail(rest, nl) + more, nl));
    } else {
      assert [] + Split(s + more, nl) == Split(s + more, nl);
    }
  }

  /** A final newline makes the tail one more line. */
  lemma SplitTerminated<T>(s: seq<T>, nl: T)
    ensures Split(s + [nl], nl) == Split(s, nl) + [Tail(s, nl)] && Tail(s + [nl], nl) == []
  {
    SplitAppend(s, [nl], nl);
    TailHasNoNewline(s, nl);
    var tail := Tail(s, nl);
    SplitJoin([tail], [], nl);
    assert Join([tail][1..], [], nl) == [];
    assert Join([tail], [], nl) == tail + [nl] + [];
    assert tail + [nl] + [] == tail + [nl];
  }

  function Concat<T>(pieces: seq<seq<T>>): seq<T> {
    if pieces == [] then [] else pieces[0] + Concat(pieces[1..])
  }

  lemma {:induction false} ConcatAppend<T>(pieces: seq<seq<T>>, last: seq<T>)
    ensures Concat(pieces + [last]) == Concat(pieces) + last
  {
    if pieces == [] {
    } else {
      assert (pieces + [last])[1..] == pieces[1..] + [last];
      ConcatAppend(pieces[1..], last);
    }
  }
}
