/** Small helpers shared by every module. */
module Basics {

  datatype Option<+T> = None | Some(value: T) {
    predicate IsFailure() {
      None?
    }

    function PropagateFailure<U>(): Option<U>
      requires None?
    {
      None
    }

    function Extract(): T
      requires Some?
    {
      value
    }
  }

  // ----- Sequences built by appending in a loop -----

  /** done is a finished prefix of whole and rest is what remains to append. */
  ghost predicate Builds<T>(done: seq<T>, rest: seq<T>, whole: seq<T>) {
    whole == done + rest
  }

  lemma BuildStep<T>(done: seq<T>, next: seq<T>, rest: seq<T>, whole: seq<T>)
    requires Builds(done, next + rest, whole)
    ensures Builds(done + next, rest, whole)
  {
    assert done + (next + rest) == (done + next) + rest;
  }

  lemma BuildEnds<T>(done: seq<T>, whole: seq<T>)
    ensures Builds([], whole, whole)
    ensures Builds(done, [], whole) ==> done == whole
  {
    assert done + [] == done;
    assert [] + whole == whole;
  }

  lemma Associates<T>(a: seq<T>, b: seq<T>, c: seq<T>)
    ensures a + (b + c) == (a + b) + c
  {
  }

  lemma Tail<T>(s: seq<T>, i: nat)
    requires i < |s|
    ensures s[i..] != [] && s[i..][0] == s[i] && s[i..][1..] == s[i + 1..]
  {
  }
}
