/** The loop shared by every `scanProject`: for each file in order, push
    its result, or skip the file when its analysis throws (`None`). */
module ScanLoop {
  import opened Wrappers

  /** The end of one pass: the result is pushed unless the pass threw. */
  function Push<R>(results: seq<R>, r: Option<R>): seq<R>
  {
    if r.Some? then results + [r.value] else results
  }

  /** The results pushed for `files`, in file order. */
  function Collect<R>(files: seq<string>, outcome: string -> Option<R>): seq<R>
  {
    if files == [] then []
    else Push(Collect(files[..|files| - 1], outcome), outcome(files[|files| - 1]))
  }

  /** One more pass of the loop. */
  lemma CollectStep<R>(files: seq<string>, i: int, outcome: string -> Option<R>)
    requires 0 <= i < |files|
    ensures Collect(files[..i + 1], outcome) == Push(Collect(files[..i], outcome), outcome(files[i]))
  {
    assert files[..i + 1][..i] == files[..i];
  }

  /** `r` is the result of one of `files`. */
  ghost predicate Produced<R>(files: seq<string>, outcome: string -> Option<R>, r: R)
  {
    exists i :: 0 <= i < |files| && outcome(files[i]) == Some(r)
  }

  /** Every pushed result is the result of one of the files, and every file
      that does not throw has its result pushed; there are never more
      results than files. */
  lemma {:induction false} CollectExactly<R>(files: seq<string>, outcome: string -> Option<R>)
    ensures |Collect(files, outcome)| <= |files|
    ensures forall r :: r in Collect(files, outcome) ==> Produced(files, outcome, r)
    ensures forall i :: 0 <= i < |files| && outcome(files[i]).Some? ==> outcome(files[i]).value in Collect(files, outcome)
  {
    if files != [] {
      var init := files[..|files| - 1];
      var last := files[|files| - 1];
      CollectExactly(init, outcome);
      var prev := Collect(init, outcome);
      var rs := Collect(files, outcome);
      assert rs == prev + (if outcome(last).Some? then [outcome(last).value] else []);
      forall r | r in rs
        ensures Produced(files, outcome, r)
      {
        if r in prev {
          assert Produced(init, outcome, r);
          var i :| 0 <= i < |init| && outcome(init[i]) == Some(r);
          assert files[i] == init[i];
        } else {
          assert outcome(files[|files| - 1]) == Some(r);
        }
      }
      forall i | 0 <= i < |files| && outcome(files[i]).Some?
        ensures outcome(files[i]).value in rs
      {
        if i < |init| {
          assert files[i] == init[i];
        }
      }
    }
  }

  /** When every file throws, nothing is pushed. */
  lemma {:induction false} CollectNothing<R>(files: seq<string>, outcome: string -> Option<R>)
    requires forall i :: 0 <= i < |files| ==> outcome(files[i]).None?
    ensures Collect(files, outcome) == []
  {
    if files != [] {
      CollectNothing(files[..|files| - 1], outcome);
    }
  }
}
