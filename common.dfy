/** Shared vocabulary of the portal: identifiers, roles, HTTP status codes,
    optional values, and the two array idioms the route handlers rely on
    (`filter(id => id !== x)` and "first element matching a key"). */
module Common {

  datatype Option<T> = None | Some(value: T)

  /** Either a value or the HTTP status code of an error response. */
  datatype Result<T> = Ok(value: T) | Err(code: int)

  /** Document identifiers are opaque; only equality matters. */
  type UserId = nat
  type EventId = nat
  type TaskId = nat

  /** Instants (dates, `Date.now()`) are abstract numbers. */
  type Time = int

  datatype Role = Admin | Member

  /** The authenticated caller that the `protect` middleware attaches as `req.user`. */
  datatype Caller = Caller(id: UserId, role: Role)

  const OK: int := 200
  const CREATED: int := 201
  const BAD_REQUEST: int := 400
  const UNAUTHORIZED: int := 401
  const NOT_FOUND: int := 404
  const SERVER_ERROR: int := 500

  /** `s.filter(y => y !== x)`: every occurrence of `x` dropped, the rest kept in order. */
  function Without<T(==)>(s: seq<T>, x: T): (r: seq<T>)
    ensures x !in r
    ensures forall y :: y in s && y != x ==> y in r
    ensures forall y :: y in r ==> y in s
    ensures |r| <= |s|
  {
    if s == [] then []
    else if s[0] == x then Without(s[1..], x)
    else [s[0]] + Without(s[1..], x)
  }

  lemma {:induction false} WithoutAbsent<T>(s: seq<T>, x: T)
    requires x !in s
    ensures Without(s, x) == s
  {
    if s != [] {
      WithoutAbsent(s[1..], x);
    }
  }

  /** Filtering distributes over concatenation: this is what "the others keep
      their relative order" means for a filter. */
  lemma {:induction false} WithoutAppend<T>(s: seq<T>, t: seq<T>, x: T)
    ensures Without(s + t, x) == Without(s, x) + Without(t, x)
  {
    if s == [] {
      assert s + t == t;
    } else {
      assert (s + t)[1..] == s[1..] + t;
      WithoutAppend(s[1..], t, x);
    }
  }

  /** Appending `x` and filtering `x` out again gives the filtered original. */
  lemma WithoutAppendSelf<T>(s: seq<T>, x: T)
    ensures Without(s + [x], x) == Without(s, x)
  {
    WithoutAppend(s, [x], x);
    assert Without([x], x) == [];
  }

  /** No element but `x` loses or gains an occurrence. */
  lemma {:induction false} WithoutMultiset<T>(s: seq<T>, x: T)
    ensures multiset(Without(s, x)) == multiset(s)[x := 0]
  {
    if s == [] {
    } else {
      WithoutMultiset(s[1..], x);
      assert s == [s[0]] + s[1..];
      assert multiset(s) == multiset{s[0]} + multiset(s[1..]);
    }
  }

  /** Index of the first element satisfying `p`, the way `findOne`,
      `findById` and `tasks.id()` resolve a key. */
  function FindFirst<T>(s: seq<T>, p: T -> bool): (r: Option<nat>)
    ensures r.Some? ==> r.value < |s| && p(s[r.value])
    ensures r.Some? ==> forall j :: 0 <= j < r.value ==> !p(s[j])
    ensures r.None? <==> forall j :: 0 <= j < |s| ==> !p(s[j])
  {
    if s == [] then None
    else if p(s[0]) then Some(0)
    else match FindFirst(s[1..], p)
      case None => None
      case Some(k) => Some(k + 1)
  }

  lemma FindFirstAt<T>(s: seq<T>, p: T -> bool, k: nat)
    requires k < |s| && p(s[k])
    requires forall j :: 0 <= j < k ==> !p(s[j])
    ensures FindFirst(s, p) == Some(k)
  {
  }

  /** Removes the element at index `k`, as `deleteOne` does to a collection. */
  function RemoveAt<T>(s: seq<T>, k: nat): (r: seq<T>)
    requires k < |s|
    ensures |r| == |s| - 1
    ensures forall j :: 0 <= j < k ==> r[j] == s[j]
    ensures forall j :: k <= j < |r| ==> r[j] == s[j + 1]
  {
    s[..k] + s[k + 1..]
  }
}
