/**
 How runs with different numbers of tokens relate: a run that stopped for want of tokens can be
 resumed with more, and the run without a token array returns exactly how many tokens are needed.
 */
module JsonModes {
  import opened JsonLex
  import opened JsonRun

  predicate OutOfTokens(r: Outcome) {
    r.Failed? && r.code == NOMEM
  }

  /** Tokens that were not needed make no difference. */
  lemma {:induction false} MoreRoom(js: string, len: nat, st: State, n: nat, m: nat)
    requires Wf(js, st) && n <= m
    requires !OutOfTokens(Run(js, len, st, n))
    ensures Run(js, len, st, m) == Run(js, len, st, n)
    decreases |js| - st.pos
  {
    if !Done(js, len, st.pos) {
      var next := Step(js, len, st, n);
      assert Step(js, len, st, m) == next;
      if next.Go? {
        MoreRoom(js, len, next.st, n, m);
      }
    }
  }

  /**
   A run that ran out of tokens leaves the parser where a run with more tokens passes through, so
   continuing from there gives the outcome of one run with the larger array.
   */
  lemma {:induction false} Resume(js: string, len: nat, st: State, n: nat, m: nat)
    requires Wf(js, st) && n <= m
    requires OutOfTokens(Run(js, len, st, n))
    ensures Run(js, len, Run(js, len, st, n).st, m) == Run(js, len, st, m)
    decreases |js| - st.pos
  {
    if !Done(js, len, st.pos) {
      var next := Step(js, len, st, n);
      if next.Go? {
        assert Step(js, len, st, m) == next;
        Resume(js, len, next.st, n, m);
      }
    }
  }

  /** Calls with arrays of growing size, each one continuing while the one before ran out of tokens. */
  function Calls(js: string, len: nat, st: State, sizes: seq<nat>): (r: Outcome)
    requires Wf(js, st) && |sizes| > 0
    decreases |sizes|
  {
    var o := Run(js, len, st, sizes[0]);
    if |sizes| == 1 || !OutOfTokens(o) then o else Calls(js, len, o.st, sizes[1..])
  }

  predicate Growing(sizes: seq<nat>) {
    forall i, j :: 0 <= i < j < |sizes| ==> sizes[i] <= sizes[j]
  }

  /** Any sequence of such stops ends like one run with the largest array. */
  lemma {:induction false} ResumeRepeatedly(js: string, len: nat, st: State, sizes: seq<nat>)
    requires Wf(js, st) && |sizes| > 0 && Growing(sizes)
    ensures Calls(js, len, st, sizes) == Run(js, len, st, sizes[|sizes| - 1])
    decreases |sizes|
  {
    var n, m := sizes[0], sizes[|sizes| - 1];
    if |sizes| > 1 {
      if OutOfTokens(Run(js, len, st, n)) {
        ResumeRepeatedly(js, len, Run(js, len, st, n).st, sizes[1..]);
        Resume(js, len, st, n, m);
      } else {
        MoreRoom(js, len, st, n, m);
      }
    }
  }

  /** One turn moves the count exactly as it moves the token array. */
  lemma StepCounts(js: string, len: nat, st: State, cap: nat)
    requires Wf(js, st) && !Done(js, len, st.pos)
    requires Step(js, len, st, cap).Go?
    ensures var s := Step(js, len, st, cap).st;
      && |st.toks| <= |s.toks| <= |st.toks| + 1
      && CountRun(js, len, st.pos, |st.toks|) == CountRun(js, len, s.pos, |s.toks|)
  {
    var x := Lex(js, len, st.pos);
    assert CountRun(js, len, st.pos, |st.toks|)
        == CountRun(js, len, After(x, st.pos), |Step(js, len, st, cap).st.toks|);
  }

  /** A turn depends on the capacity only in whether a token it needs is there. */
  lemma StepRoom(js: string, len: nat, st: State, cap: nat, n: nat)
    requires Wf(js, st) && !Done(js, len, st.pos)
    requires Step(js, len, st, cap).Go?
    ensures Step(js, len, st, n)
         == if |st.toks| < |Step(js, len, st, cap).st.toks| && |st.toks| >= n then Halt(NOMEM, st)
            else Step(js, len, st, cap)
  {
  }

  /** Tokens are only ever added, and a completed run is determined by how many it needs. */
  lemma {:induction false} CompletedRun(js: string, len: nat, st: State, cap: nat, n: nat)
    requires Wf(js, st) && Run(js, len, st, cap).Complete?
    ensures var s := Run(js, len, st, cap).st;
      && |st.toks| <= |s.toks|
      && CountRun(js, len, st.pos, |st.toks|) == |s.toks|
      && (n >= |s.toks| ==> Run(js, len, st, n) == Complete(s))
      && (|st.toks| <= n < |s.toks| ==> OutOfTokens(Run(js, len, st, n)))
    decreases |js| - st.pos
  {
    if !Done(js, len, st.pos) {
      var s := Step(js, len, st, cap).st;
      StepCounts(js, len, st, cap);
      StepRoom(js, len, st, cap, n);
      CompletedRun(js, len, s, cap, n);
    }
  }

  /** Counting is exact: it gives the least number of tokens that is enough, and what the call returns. */
  lemma {:induction false} CountIsExact(js: string, len: nat, cap: nat, n: nat)
    requires Run(js, len, Init, cap).Complete?
    ensures var c := CountRun(js, len, 0, 0);
      && c == Code(0, Run(js, len, Init, cap))
      && Code(0, Run(js, len, Init, n)) == if n >= c then c else NOMEM
  {
    CompletedRun(js, len, Init, cap, n);
  }

  /** A call that resumes returns how many tokens it has added to those of the calls before. */
  lemma ResumedCount(js: string, len: nat, n: nat, m: nat)
    requires n <= m && OutOfTokens(Run(js, len, Init, n)) && Run(js, len, Init, m).Complete?
    ensures var st := Run(js, len, Init, n).st;
      |st.toks| + Code(|st.toks|, Run(js, len, st, m)) == CountRun(js, len, 0, 0)
  {
    Resume(js, len, Init, n, m);
    CountIsExact(js, len, m, m);
  }

  /** On any input that can be counted, that many tokens are enough not to run out. */
  lemma {:induction false} CountSuffices(js: string, len: nat, st: State, n: nat)
    requires Wf(js, st)
    requires 0 <= CountRun(js, len, st.pos, |st.toks|) <= n
    ensures !OutOfTokens(Run(js, len, st, n))
    decreases |js| - st.pos
  {
    CountGrows(js, len, st.pos, |st.toks|);
    if !Done(js, len, st.pos) {
      var x := Lex(js, len, st.pos);
      if x.Opening? || x.Text? || x.Scalar? {
        CountGrows(js, len, After(x, st.pos), |st.toks| + 1);
      }
      var next := Step(js, len, st, n);
      if next.Go? {
        CountSuffices(js, len, next.st, n);
      }
    }
  }

  lemma {:induction false} CountGrows(js: string, len: nat, pos: nat, count: nat)
    requires pos <= |js|
    ensures var c := CountRun(js, len, pos, count); c < 0 || c >= count
    decreases |js| - pos
  {
    if !Done(js, len, pos) {
      var x := Lex(js, len, pos);
      if !x.Bad? {
        CountGrows(js, len, After(x, pos), if x.Opening? || x.Text? || x.Scalar? then count + 1 else count);
      }
    }
  }
}
