/** Whole programs on the library: any sequence of calls and timer ticks, executed on the thread objects. */
module UthreadsProgram {
  import opened Uthreads
  import opened UthreadsInvariant
  import opened UthreadsRuns
  import opened UthreadsLibrary

  lemma OneMore(s: State, es: seq<Event>, n: nat)
    requires n < |es|
    ensures Exec(s, es[..n+1]) == Apply(Exec(s, es[..n]), es[n])
  {
    assert es[..n+1] == es[..n] + [es[n]];
    ExecConcat(s, es[..n], [es[n]]);
    assert Exec(Exec(s, es[..n]), [es[n]]) == Apply(Exec(s, es[..n]), es[n]);
  }

  lemma StoppedEarly(s: State, es: seq<Event>, n: nat)
    requires n <= |es| && !Exec(s, es[..n]).status.Running?
    ensures Exec(s, es) == Exec(s, es[..n])
  {
    assert es == es[..n] + es[n..];
    ExecConcat(s, es[..n], es[n..]);
    StoppedStays(Exec(s, es[..n]), es[n..]);
  }

  /** Initialises the library and makes the calls `es`, until the process ends. The library ends up in the state of the
      run, every call has returned the code of the run, and after faultless calls all invariants hold. */
  method Play(es: seq<Event>) returns (lib: Library, codes: seq<int>)
    ensures lib.Valid() && Agrees(lib.View(), Exec(Initial(), es))
    ensures |codes| <= |es| && (lib.status.Running? ==> |codes| == |es|)
    ensures forall j :: 0 <= j < |codes| ==> codes[j] == Code(Exec(Initial(), es[..j]), es[j])
    ensures Clean(Initial(), es) ==> Sound(lib.View())
  {
    lib := new Library();
    codes := [];
    while |codes| < |es| && lib.status.Running?
      invariant lib.Valid() && fresh(lib) && fresh(lib.uthreads) && fresh(lib.tids) && fresh(lib.Objects() - {null})
      invariant |codes| <= |es| && Agrees(lib.View(), Exec(Initial(), es[..|codes|]))
      invariant forall j :: 0 <= j < |codes| ==> codes[j] == Code(Exec(Initial(), es[..j]), es[j])
    {
      OneMore(Initial(), es, |codes|);
      var code := lib.Do(es[|codes|]);
      codes := codes + [code];
    }
    if |codes| == |es| {
      assert es[..|codes|] == es;
    } else {
      StoppedEarly(Initial(), es, |codes|);
    }
    InitialInv();
    if Clean(Initial(), es) {
      RunsAreSound(Initial(), es);
    }
  }
}
