/** Vocabulary shared by every controller: optional values, handler outcomes,
    JavaScript truthiness of request fields, and first-match lookup and
    filtering over the row sequences that stand for database tables. */
module Common {

  datatype Option<+T> = None | Some(value: T)

  /** What a request handler answers: a value, or the HTTP error status
      together with the message the client sees. */
  datatype Outcome<+T> = Ok(value: T) | Err(status: int, msg: string)

  /** A request-body string is truthy in JavaScript when it is present and
      not the empty string; `if (x) data.f = x` copies only such values. */
  predicate Truthy(f: Option<string>) {
    f.Some? && f.value != ""
  }

  /** The value a truthiness-guarded partial update leaves in a field. */
  function PickTruthy(f: Option<string>, current: string): string {
    if Truthy(f) then f.value else current
  }

  /** The value a presence-guarded update leaves in a field. */
  function PickGiven<T>(f: Option<T>, current: T): T {
    if f.Some? then f.value else current
  }

  /** Index of the first row satisfying `p` (a `findUnique`/`findFirst`). */
  function IndexOf<T>(s: seq<T>, p: T -> bool): (r: Option<nat>)
    ensures r.Some? ==> r.value < |s| && p(s[r.value])
    ensures r.Some? ==> forall k :: 0 <= k < r.value ==> !p(s[k])
    ensures r.None? <==> forall k :: 0 <= k < |s| ==> !p(s[k])
  {
    if s == [] then None
    else if p(s[0]) then Some(0)
    else match IndexOf(s[1..], p) {
      case None => None
      case Some(i) => Some(i + 1)
    }
  }

  /** Replacing the first match by a row that still matches keeps it the
      first match. */
  lemma IndexOfAfterUpdate<T>(s: seq<T>, i: nat, x: T, p: T -> bool)
    requires IndexOf(s, p) == Some(i) && p(x)
    ensures IndexOf(s[i := x], p) == Some(i)
  {
    var t := s[i := x];
    assert p(t[i]);
    assert forall k | 0 <= k < i :: t[k] == s[k];
  }

  /** The first row satisfying `p`, if any. */
  function Find<T>(s: seq<T>, p: T -> bool): (r: Option<T>)
    ensures r.Some? ==> r.value in s && p(r.value)
    ensures r.None? <==> forall x :: x in s ==> !p(x)
  {
    match IndexOf(s, p) {
      case None => None
      case Some(i) => Some(s[i])
    }
  }

  /** Appending rows never changes which row a lookup finds first, unless
      no earlier row matched. */
  lemma {:induction false} IndexOfAppend<T>(s: seq<T>, t: seq<T>, p: T -> bool)
    ensures IndexOf(s, p).Some? ==> IndexOf(s + t, p) == IndexOf(s, p)
    ensures IndexOf(s, p).None? ==>
      IndexOf(s + t, p) == (match IndexOf(t, p) {
        case None => None
        case Some(i) => Some(|s| + i)
      })
  {
    if s == [] {
      assert s + t == t;
    } else {
      assert (s + t)[1..] == s[1..] + t;
      IndexOfAppend(s[1..], t, p);
    }
  }

  /** `Find` on appended rows: earlier rows win. */
  lemma FindAppend<T>(s: seq<T>, t: seq<T>, p: T -> bool)
    ensures Find(s, p).Some? ==> Find(s + t, p) == Find(s, p)
    ensures Find(s, p).None? ==> Find(s + t, p) == Find(t, p)
  {
    IndexOfAppend(s, t, p);
    match IndexOf(s, p) {
      case Some(i) =>
      case None =>
        match IndexOf(t, p) {
          case None =>
          case Some(j) => assert (s + t)[|s| + j] == t[j];
        }
    }
  }

  /** The rows satisfying `p`, in their original order (a `findMany`
      `where`, or `Array.prototype.filter`). */
  function Filter<T>(s: seq<T>, p: T -> bool): (r: seq<T>)
    ensures |r| <= |s|
    ensures forall x | x in r :: x in s && p(x)
    ensures forall x | x in s && p(x) :: x in r
  {
    if s == [] then []
    else (if p(s[0]) then [s[0]] else []) + Filter(s[1..], p)
  }

  lemma {:induction false} FilterAppend<T>(s: seq<T>, t: seq<T>, p: T -> bool)
    ensures Filter(s + t, p) == Filter(s, p) + Filter(t, p)
  {
    if s == [] {
      assert s + t == t;
    } else {
      assert (s + t)[1..] == s[1..] + t;
      FilterAppend(s[1..], t, p);
    }
  }

  lemma {:induction false} FilterAll<T>(s: seq<T>, p: T -> bool)
    requires forall x | x in s :: p(x)
    ensures Filter(s, p) == s
  {
    if s != [] {
      assert s == [s[0]] + s[1..];
      FilterAll(s[1..], p);
    }
  }

  lemma FilterNone<T>(s: seq<T>, p: T -> bool)
    requires forall x | x in s :: !p(x)
    ensures Filter(s, p) == []
  {
    if Filter(s, p) != [] {
      assert Filter(s, p)[0] in Filter(s, p);
    }
  }

  /** Filtering keeps every occurrence of a kept value and none of a
      dropped one. */
  lemma {:induction false} FilterCount<T>(s: seq<T>, p: T -> bool, x: T)
    ensures multiset(Filter(s, p))[x] == if p(x) then multiset(s)[x] else 0
  {
    if s != [] {
      assert s == [s[0]] + s[1..];
      FilterCount(s[1..], p, x);
    }
  }

  /** Filtering two permutations of each other gives permutations. */
  lemma FilterPermutation<T(!new)>(s: seq<T>, t: seq<T>, p: T -> bool)
    requires multiset(s) == multiset(t)
    ensures multiset(Filter(s, p)) == multiset(Filter(t, p))
  {
    var a, b := multiset(Filter(s, p)), multiset(Filter(t, p));
    forall x ensures a[x] == b[x] {
      FilterCount(s, p, x);
      FilterCount(t, p, x);
    }
    assert a == b;
  }

  /** Substring containment, the ORM's `contains` filter (case-sensitive). */
  predicate Contains(hay: string, needle: string) {
    exists i | 0 <= i <= |hay| - |needle| :: OccursAt(hay, needle, i)
  }

  predicate OccursAt(hay: string, needle: string, i: int)
    requires 0 <= i <= |hay| - |needle|
  {
    hay[i..i + |needle|] == needle
  }

  /** Dropping the element at `i` removes one occurrence of it. */
  lemma RemoveOne<T>(s: seq<T>, i: nat)
    requires i < |s|
    ensures multiset(s[..i] + s[i + 1..]) == multiset(s) - multiset{s[i]}
  {
    assert s == s[..i] + [s[i]] + s[i + 1..];
  }
}
