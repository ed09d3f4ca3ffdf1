/** The relations between runs with different numbers of tokens, for the build with parent links. */
module JsonLinkedModes {
  import opened JsonLex
  import opened JsonRun
  import opened JsonModes
  import opened JsonLinks

  /** A turn depends on the number of tokens only in whether one that it needs is there. */
  lemma LinkedStepRoom(js: string, len: nat, l: Linked, cap: nat, n: nat)
    requires Wf(js, l.st) && WfLinks(l) && !Done(js, len, l.st.pos)
    requires LinkedStep(js, len, l, cap).LGo?
    ensures LinkedStep(js, len, l, n)
         == if |l.st.toks| < |LinkedStep(js, len, l, cap).l.st.toks| && |l.st.toks| >= n then LHalt(NOMEM, l)
            else LinkedStep(js, len, l, cap)
  {
    hide CloseLinked;
    if !Lex(js, len, l.st.pos).Closing? {
      StepRoom(js, len, l.st, cap, n);
      hide Step;
    }
  }

  /** One turn moves the count exactly as it moves the token array. */
  lemma LinkedStepCounts(js: string, len: nat, l: Linked, cap: nat)
    requires Wf(js, l.st) && WfLinks(l) && !Done(js, len, l.st.pos)
    requires LinkedStep(js, len, l, cap).LGo?
    ensures var s := LinkedStep(js, len, l, cap).l.st;
      && |l.st.toks| <= |s.toks| <= |l.st.toks| + 1
      && CountRun(js, len, l.st.pos, |l.st.toks|) == CountRun(js, len, s.pos, |s.toks|)
  {
    if !Lex(js, len, l.st.pos).Closing? {
      StepCounts(js, len, l.st, cap);
    }
  }

  /** A halt that is not for want of tokens is the same with any more of them. */
  lemma LinkedHalts(js: string, len: nat, l: Linked, n: nat, m: nat)
    requires Wf(js, l.st) && WfLinks(l) && !Done(js, len, l.st.pos) && n <= m
    requires var next := LinkedStep(js, len, l, n); next.LHalt? && next.code != NOMEM
    ensures LinkedStep(js, len, l, m) == LinkedStep(js, len, l, n)
  {
    hide CloseLinked;
  }

  /** Tokens that were not needed make no difference. */
  lemma {:induction false} LinkedMoreRoom(js: string, len: nat, l: Linked, n: nat, m: nat)
    requires Wf(js, l.st) && WfLinks(l) && n <= m
    requires !OutOfTokens(Forget(LinkedRun(js, len, l, n)))
    ensures LinkedRun(js, len, l, m) == LinkedRun(js, len, l, n)
    decreases |js| - l.st.pos
  {
    if !Done(js, len, l.st.pos) {
      hide LinkedStep;
      var next := LinkedStep(js, len, l, n);
      if next.LGo? {
        LinkedStepRoom(js, len, l, n, n);
        LinkedStepRoom(js, len, l, n, m);
        LinkedMoreRoom(js, len, next.l, n, m);
      } else {
        LinkedHalts(js, len, l, n, m);
      }
    }
  }

  /** Going on after NOMEM with more tokens gives what one run with the larger array gives. */
  lemma {:induction false} LinkedResume(js: string, len: nat, l: Linked, n: nat, m: nat)
    requires Wf(js, l.st) && WfLinks(l) && n <= m
    requires OutOfTokens(Forget(LinkedRun(js, len, l, n)))
    ensures LinkedRun(js, len, LinkedRun(js, len, l, n).l, m) == LinkedRun(js, len, l, m)
    decreases |js| - l.st.pos
  {
    if !Done(js, len, l.st.pos) {
      hide LinkedStep;
      var next := LinkedStep(js, len, l, n);
      if next.LGo? {
        LinkedStepRoom(js, len, l, n, n);
        LinkedStepRoom(js, len, l, n, m);
        LinkedResume(js, len, next.l, n, m);
      }
    }
  }

  /** A completed run is determined by how many tokens it needs. */
  lemma {:induction false} LinkedCompletedRun(js: string, len: nat, l: Linked, cap: nat, n: nat)
    requires Wf(js, l.st) && WfLinks(l) && LinkedRun(js, len, l, cap).LComplete?
    ensures var r := LinkedRun(js, len, l, cap).l;
      && |l.st.toks| <= |r.st.toks|
      && CountRun(js, len, l.st.pos, |l.st.toks|) == |r.st.toks|
      && (n >= |r.st.toks| ==> LinkedRun(js, len, l, n) == LComplete(r))
      && (|l.st.toks| <= n < |r.st.toks| ==> OutOfTokens(Forget(LinkedRun(js, len, l, n))))
    decreases |js| - l.st.pos
  {
    if !Done(js, len, l.st.pos) {
      hide LinkedStep, CountRun;
      var k := LinkedStep(js, len, l, cap).l;
      LinkedStepCounts(js, len, l, cap);
      LinkedStepRoom(js, len, l, cap, n);
      LinkedCompletedRun(js, len, k, cap, n);
    }
  }

  /** Counting is exact in this build too, also on inputs that only it accepts. */
  lemma {:induction false} LinkedCountIsExact(js: string, len: nat, cap: nat, n: nat)
    requires LinkedRun(js, len, Linked(Init, []), cap).LComplete?
    ensures var c := CountRun(js, len, 0, 0);
      && c == Code(0, Forget(LinkedRun(js, len, Linked(Init, []), cap)))
      && Code(0, Forget(LinkedRun(js, len, Linked(Init, []), n))) == if n >= c then c else NOMEM
  {
    LinkedCompletedRun(js, len, Linked(Init, []), cap, n);
  }
}
