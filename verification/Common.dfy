/** Datatypes and sequence helpers shared by the other modules. */
module Common {

  datatype Option<+T> = None | Some(value: T)

  datatype Result<+T, +E> = Ok(value: T) | Err(error: E)

  /** A point in time, in seconds. The clock port of the repository hands these out. */
  type Instant = real

  function Max(a: real, b: real): real { if a < b then b else a }

  function Min(a: real, b: real): real { if b < a then b else a }

  /** How many positions of `s` satisfy `p`. */
  function CountIf<T>(s: seq<T>, p: T -> bool): (n: nat)
    ensures n <= |s|
  {
    if s == [] then 0
    else CountIf(s[..|s| - 1], p) + if p(s[|s| - 1]) then 1 else 0
  }

  lemma {:induction false} CountIfAppend<T>(s: seq<T>, t: seq<T>, p: T -> bool)
    ensures CountIf(s + t, p) == CountIf(s, p) + CountIf(t, p)
    decreases |t|
  {
    if t == [] {
      assert s + t == s;
    } else {
      CountIfAppend(s, t[..|t| - 1], p);
      assert (s + t)[..|s + t| - 1] == s + t[..|t| - 1];
    }
  }

  lemma {:induction false} CountIfUpdate<T>(s: seq<T>, i: nat, x: T, p: T -> bool)
    requires i < |s|
    ensures CountIf(s[i := x], p)
         == CountIf(s, p) - (if p(s[i]) then 1 else 0) + (if p(x) then 1 else 0)
  {
    assert s == s[..i] + [s[i]] + s[i + 1..];
    assert s[i := x] == s[..i] + [x] + s[i + 1..];
    CountIfAppend(s[..i] + [s[i]], s[i + 1..], p);
    CountIfAppend(s[..i] + [x], s[i + 1..], p);
    CountIfAppend(s[..i], [s[i]], p);
    CountIfAppend(s[..i], [x], p);
    assert [s[i]][..0] == [] && [x][..0] == [];
  }

  /** A count is positive exactly when some position satisfies the predicate. */
  lemma {:induction false} CountIfPositive<T>(s: seq<T>, p: T -> bool)
    ensures CountIf(s, p) > 0 <==> exists i :: 0 <= i < |s| && p(s[i])
  {
    if s != [] {
      var m := |s| - 1;
      CountIfPositive(s[..m], p);
      if p(s[m]) {
      } else if CountIf(s[..m], p) > 0 {
        var i :| 0 <= i < m && p(s[..m][i]);
        assert p(s[i]);
      } else if i :| 0 <= i < |s| && p(s[i]) {
        assert i < m && p(s[..m][i]);
      }
    }
  }

  lemma {:induction false} CountIfMonotone<T>(s: seq<T>, p: T -> bool, q: T -> bool)
    requires forall i :: 0 <= i < |s| && p(s[i]) ==> q(s[i])
    ensures CountIf(s, p) <= CountIf(s, q)
  {
    if s != [] {
      CountIfMonotone(s[..|s| - 1], p, q);
    }
  }

  lemma CountAppendOne<T>(s: seq<T>, x: T, p: T -> bool)
    ensures CountIf(s + [x], p) == CountIf(s, p) + if p(x) then 1 else 0
  {
    assert (s + [x])[..|s + [x]| - 1] == s;
  }

  function One(b: bool): nat { if b then 1 else 0 }

  /** The value of a key, if it has one. */
  function Lookup<K, V>(m: map<K, V>, key: K): Option<V> {
    if key in m then Some(m[key]) else None
  }

  /** An event publisher, as the log of what was published. */
  class EventLog<E> {
    var events: seq<E>

    constructor ()
      ensures events == []
    {
      events := [];
    }

    method Publish(event: E)
      modifies this
      ensures events == old(events) + [event]
    {
      events := events + [event];
    }
  }
}
