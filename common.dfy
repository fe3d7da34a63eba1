/** Option, results with an HTTP error, lookup by key and order-preserving filtering. */
module Common {

  datatype Option<T> = None | Some(value: T)

  /** An HTTP error as FastAPI's `HTTPException` carries it. */
  datatype HttpError = HttpError(status: int, detail: string)

  datatype Result<T> = Ok(value: T) | Err(error: HttpError)

  /** Rounding toward zero: Python `int()` on a float, JavaScript `Math.trunc`. */
  function Trunc(x: real): (n: int)
    ensures x >= 0.0 ==> n == x.Floor && n as real <= x < n as real + 1.0
    ensures x < 0.0 ==> n as real - 1.0 < x <= n as real
  {
    if x >= 0.0 then x.Floor else -((-x).Floor)
  }

  /** Index of the first element of `s` whose key is `id`, None when no
      element has it: Python's `next((x for x in s if x[key] == id), None)`
      on the position. */
  function FirstWith<T, K(==)>(s: seq<T>, key: T -> K, id: K): (k: Option<nat>)
    ensures k.Some? ==> k.value < |s| && key(s[k.value]) == id
                        && forall j :: 0 <= j < k.value ==> key(s[j]) != id
    ensures k.None? ==> forall j :: 0 <= j < |s| ==> key(s[j]) != id
  {
    if s == [] then None
    else if key(s[0]) == id then Some(0)
    else match FirstWith(s[1..], key, id)
      case None => None
      case Some(k) => Some(k + 1)
  }

  /** A position holding the key with none before it is what the lookup finds. */
  lemma {:induction false} FirstWithIs<T, K>(s: seq<T>, key: T -> K, id: K, i: nat)
    requires i < |s| && key(s[i]) == id
    requires forall j :: 0 <= j < i ==> key(s[j]) != id
    ensures FirstWith(s, key, id) == Some(i)
  {
    if i > 0 {
      FirstWithIs(s[1..], key, id, i - 1);
    }
  }

  /** The elements of `s` that `keep` accepts, in their original order
      (a Python list comprehension with an `if`, JavaScript `Array.prototype.filter`). */
  function Filter<T>(s: seq<T>, keep: T -> bool): (r: seq<T>)
    ensures |r| <= |s|
    ensures forall i :: 0 <= i < |r| ==> keep(r[i]) && r[i] in s
  {
    if s == [] then []
    else if keep(s[0]) then [s[0]] + Filter(s[1..], keep)
    else Filter(s[1..], keep)
  }

  /** Filtering keeps every accepted occurrence and drops every other one. */
  lemma {:induction false} FilterCount<T>(s: seq<T>, keep: T -> bool, x: T)
    ensures multiset(Filter(s, keep))[x] == if keep(x) then multiset(s)[x] else 0
  {
    if s != [] {
      FilterCount(s[1..], keep, x);
      assert s == [s[0]] + s[1..];
    }
  }

  /** An element is kept exactly when it occurs in `s` and is accepted. */
  lemma FilterMembership<T>(s: seq<T>, keep: T -> bool, x: T)
    ensures x in Filter(s, keep) <==> x in s && keep(x)
  {
    FilterCount(s, keep, x);
    assert x in Filter(s, keep) <==> multiset(Filter(s, keep))[x] > 0;
  }

  /** A filter that accepts everything is the identity. */
  lemma {:induction false} FilterAll<T>(s: seq<T>, keep: T -> bool)
    requires forall x :: x in s ==> keep(x)
    ensures Filter(s, keep) == s
  {
    if s != [] {
      assert s[0] in s;
      assert forall x :: x in s[1..] ==> x in s;
      FilterAll(s[1..], keep);
    }
  }

  /** A filter that accepts nothing leaves nothing. */
  lemma {:induction false} FilterNone<T>(s: seq<T>, keep: T -> bool)
    requires forall i :: 0 <= i < |s| ==> !keep(s[i])
    ensures Filter(s, keep) == []
  {
    if s != [] {
      FilterNone(s[1..], keep);
    }
  }

  /** Filtering a sequence that ends with an accepted element ends with it. */
  lemma FilterSnoc<T>(s: seq<T>, x: T, keep: T -> bool)
    requires keep(x)
    ensures Filter(s + [x], keep) == Filter(s, keep) + [x]
  {
    FilterAppend(s, [x], keep);
    assert Filter([x], keep) == [x] + Filter([x][1..], keep);
  }

  /** Two complementary filters split a sequence: their lengths add up and
      together they hold every element exactly as often as `s` does. */
  lemma {:induction false} FilterPartition<T>(s: seq<T>, a: T -> bool, b: T -> bool)
    requires forall x :: x in s ==> !(a(x) && b(x))
    ensures |Filter(s, a)| + |Filter(s, b)| == |Filter(s, x => a(x) || b(x))|
    ensures multiset(Filter(s, a)) + multiset(Filter(s, b)) == multiset(Filter(s, x => a(x) || b(x)))
  {
    if s != [] {
      assert s[0] in s;
      assert forall x :: x in s[1..] ==> x in s;
      FilterPartition(s[1..], a, b);
    }
  }

  /** Filtering distributes over concatenation. */
  lemma {:induction false} FilterAppend<T>(s: seq<T>, t: seq<T>, keep: T -> bool)
    ensures Filter(s + t, keep) == Filter(s, keep) + Filter(t, keep)
  {
    if s == [] {
      assert s + t == t;
    } else {
      FilterAppend(s[1..], t, keep);
      assert (s + t)[1..] == s[1..] + t;
    }
  }

  /** The sequence without its element at `i`, the rest in order
      (`list.filter((_, j) => j !== i)`); unchanged when `i` is out of range. */
  function RemoveAt<T>(s: seq<T>, i: int): (r: seq<T>)
    ensures 0 <= i < |s| ==> |r| == |s| - 1 && multiset(r) + multiset{s[i]} == multiset(s)
    ensures 0 <= i < |s| ==> forall j :: 0 <= j < |r| ==> r[j] == s[if j < i then j else j + 1]
    ensures !(0 <= i < |s|) ==> r == s
  {
    if 0 <= i < |s| then
      assert s == s[..i] + [s[i]] + s[i + 1..];
      s[..i] + s[i + 1..]
    else s
  }

  /** `list[i] = v` on a copy of the list. An index at the end appends; an
      index further out would leave holes in a JavaScript array, and is taken
      to append as well. */
  function Assign<T>(s: seq<T>, i: nat, v: T): (r: seq<T>)
    ensures i < |s| ==>
              (|r| == |s| && r[i] == v
               && forall j :: 0 <= j < |r| && j != i ==> r[j] == s[j])
    ensures i >= |s| ==> r == s + [v]
  {
    if i < |s| then s[i := v] else s + [v]
  }

  /** `list.map(f)`. */
  function Map<T, U>(s: seq<T>, f: T -> U): (r: seq<U>)
    ensures |r| == |s| && forall i :: 0 <= i < |s| ==> r[i] == f(s[i])
  {
    seq(|s|, i requires 0 <= i < |s| => f(s[i]))
  }

  /** The parts written one after the other. */
  function Concat<T>(parts: seq<seq<T>>): seq<T> {
    if parts == [] then [] else Concat(parts[..|parts| - 1]) + parts[|parts| - 1]
  }
}
