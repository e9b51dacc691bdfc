/** Result types shared by the models, and the few facts about sequences they need. */
module Wrappers {
  datatype Option<+T> = None | Some(value: T)

  /** What a call that may throw gives back: the source's `return` or its exception's message. */
  datatype Result<+T> = Returned(value: T) | Thrown(message: string) {
    predicate IsFailure() {
      Thrown?
    }

    function PropagateFailure<U>(): (r: Result<U>)
      requires Thrown?
    {
      Thrown(message)
    }

    function Extract(): T
      requires Returned?
    {
      value
    }
  }

  /** `s.slice(0, n)`. */
  function Take<T>(s: seq<T>, n: nat): (r: seq<T>)
    ensures |r| <= n && r <= s
  {
    if |s| <= n then s else s[..n]
  }

  function Flatten<T>(parts: seq<seq<T>>): (all: seq<T>) {
    if parts == [] then [] else parts[0] + Flatten(parts[1..])
  }

  lemma FlattenAppend<T>(a: seq<seq<T>>, b: seq<seq<T>>)
    ensures Flatten(a + b) == Flatten(a) + Flatten(b)
  {
    if a == [] {
      assert a + b == b;
    } else {
      assert (a + b)[0] == a[0] && (a + b)[1..] == a[1..] + b;
    }
  }

  /** A prefix that already fills the bound hides whatever is appended to it. */
  lemma TakeAppend<T>(a: seq<T>, b: seq<T>, n: nat)
    ensures Take(a + b, n) == Take(Take(a, n) + b, n)
    ensures |a| <= n ==> Take(a + b, n) == a + Take(b, n - |a|)
    ensures |a| >= n ==> Take(a + b, n) == Take(a, n)
  {
  }
}
