/** Shared vocabulary of the model: optional values, HTTP-style outcomes,
    the length of a day in milliseconds, and order-preserving filtering. */
module Common {

  datatype Option<T> = None | Some(value: T)

  /** The outcome of a request handler: a value (2xx), a rejected request
      (400), a missing resource (404) or a failure inside the handler (500). */
  datatype Response<T> = Ok(value: T) | BadRequest | NotFound | ServerError

  /** An amount with its unit, as stored in Quantity sub-documents. */
  datatype Quantity = Quantity(value: real, unit: string)

  /** A request field where the schema expects a number: not sent, null, a
      JSON number, or a string together with what `Number` makes of it (None
      for NaN). */
  datatype NumberField = Absent | Null | JsonNumber(value: real) | JsonText(text: string, number: Option<real>)

  /** JavaScript truthiness of the field: undefined, null, 0 and "" are falsy;
      any other number and any non-empty string, "0" included, are truthy. */
  predicate Truthy(f: NumberField)
  {
    match f
    case JsonNumber(v) => v != 0.0
    case JsonText(s, _) => s != ""
    case _ => false
  }

  /** What a `Number` path of a Mongoose schema holds once the field is
      assigned: null, a number, or a cast error that fails `save()`. */
  datatype Cast = CastNull | CastTo(value: real) | CastFails

  /** Mongoose's number cast: null, undefined and "" give null, a string goes
      through `Number`, and NaN is a cast error. */
  function CastNumber(f: NumberField): (r: Cast)
    ensures r.CastNull? <==> f.Absent? || f.Null? || (f.JsonText? && f.text == "")
    ensures r.CastFails? <==> f.JsonText? && f.text != "" && f.number.None?
    ensures r.CastTo? && f.JsonNumber? ==> r.value == f.value
    ensures r.CastTo? && f.JsonText? ==> f.number == Some(r.value)
    ensures Truthy(f) ==> !r.CastNull?
  {
    match f
    case JsonNumber(v) => CastTo(v)
    case JsonText(s, n) =>
      if s == "" then CastNull
      else if n.None? then CastFails
      else CastTo(n.value)
    case _ => CastNull
  }

  /** 24 * 60 * 60 * 1000: JavaScript dates are millisecond counts. */
  const DAY_MS: int := 86_400_000

  /** `a` is obtained from `b` by deleting elements (order kept). */
  ghost predicate IsSubsequence<T>(a: seq<T>, b: seq<T>)
    decreases |b|
  {
    if a == [] then true
    else if b == [] then false
    else if a[0] == b[0] then IsSubsequence(a[1..], b[1..])
    else IsSubsequence(a, b[1..])
  }

  /** Array.prototype.filter: keeps, in order, the elements satisfying `p`. */
  function Filter<T(!new)>(p: T -> bool, s: seq<T>): (r: seq<T>)
    ensures |r| <= |s|
    ensures forall x :: x in r <==> x in s && p(x)
    ensures multiset(r) <= multiset(s)
    ensures forall i :: 0 <= i < |r| ==> p(r[i])
  {
    if s == [] then []
    else
      assert s == [s[0]] + s[1..];
      if p(s[0]) then [s[0]] + Filter(p, s[1..])
      else Filter(p, s[1..])
  }

  lemma {:induction false} FilterIsSubsequence<T(!new)>(p: T -> bool, s: seq<T>)
    ensures IsSubsequence(Filter(p, s), s)
    decreases |s|
  {
    if s != [] {
      FilterIsSubsequence(p, s[1..]);
      var rest := Filter(p, s[1..]);
      if p(s[0]) {
        assert Filter(p, s) == [s[0]] + rest;
        assert ([s[0]] + rest)[1..] == rest;
      } else {
        SubsequenceDropHead(rest, s);
      }
    }
  }

  /** Two filters in a row keep a subsequence of the input. */
  lemma FilterTwiceIsSubsequence<T(!new)>(p: T -> bool, q: T -> bool, s: seq<T>)
    ensures IsSubsequence(Filter(q, Filter(p, s)), s)
  {
    FilterIsSubsequence(p, s);
    FilterIsSubsequence(q, Filter(p, s));
    SubsequenceTransitive(Filter(q, Filter(p, s)), Filter(p, s), s);
  }

  /** If `a` is a subsequence of `b[1..]`, it is a subsequence of `b`. */
  lemma {:induction false} SubsequenceDropHead<T>(a: seq<T>, b: seq<T>)
    requires b != []
    requires IsSubsequence(a, b[1..])
    ensures IsSubsequence(a, b)
    decreases |b|, |a|
  {
    if a != [] && a[0] == b[0] {
      SubsequenceTail(a, b[1..]);
    }
  }

  /** Dropping the first element of a subsequence keeps it a subsequence. */
  lemma {:induction false} SubsequenceTail<T>(a: seq<T>, b: seq<T>)
    requires a != []
    requires IsSubsequence(a, b)
    ensures IsSubsequence(a[1..], b)
    decreases |b|, |a|
  {
    if a[0] == b[0] {
      if a[1..] != [] {
        SubsequenceDropHead(a[1..], b);
      }
    } else {
      SubsequenceTail(a, b[1..]);
      SubsequenceDropHead(a[1..], b);
    }
  }

  /** Extending the larger sequence keeps a subsequence a subsequence. */
  lemma {:induction false} SubsequenceAppendRight<T>(a: seq<T>, b: seq<T>, x: T)
    requires IsSubsequence(a, b)
    ensures IsSubsequence(a, b + [x])
    decreases |b|
  {
    if a != [] && b != [] {
      assert (b + [x])[1..] == b[1..] + [x];
      if a[0] == b[0] {
        SubsequenceAppendRight(a[1..], b[1..], x);
      } else {
        SubsequenceAppendRight(a, b[1..], x);
      }
    }
  }

  /** Extending both sequences by the same element keeps the relation. */
  lemma {:induction false} SubsequenceAppendBoth<T>(a: seq<T>, b: seq<T>, x: T)
    requires IsSubsequence(a, b)
    ensures IsSubsequence(a + [x], b + [x])
    decreases |b|
  {
    if a == [] {
      if b != [] && b[0] != x {
        assert (b + [x])[1..] == b[1..] + [x];
        SubsequenceAppendBoth(a, b[1..], x);
      }
    } else {
      assert (b + [x])[1..] == b[1..] + [x];
      assert (a + [x])[1..] == a[1..] + [x];
      if a[0] == b[0] {
        SubsequenceAppendBoth(a[1..], b[1..], x);
      } else {
        SubsequenceAppendBoth(a, b[1..], x);
      }
    }
  }

  /** Every sequence is a subsequence of itself. */
  lemma {:induction false} SubsequenceReflexive<T>(s: seq<T>)
    ensures IsSubsequence(s, s)
  {
    if s != [] {
      SubsequenceReflexive(s[1..]);
    }
  }

  /** A subsequence of a subsequence is a subsequence. */
  lemma {:induction false} SubsequenceTransitive<T>(a: seq<T>, b: seq<T>, c: seq<T>)
    requires IsSubsequence(a, b) && IsSubsequence(b, c)
    ensures IsSubsequence(a, c)
    decreases |c|
  {
    if a != [] && b != [] && c != [] {
      if b[0] == c[0] && a[0] == b[0] {
        SubsequenceTransitive(a[1..], b[1..], c[1..]);
      } else if b[0] == c[0] {
        SubsequenceTransitive(a, b[1..], c[1..]);
        SubsequenceDropHead(a, c);
      } else {
        SubsequenceTransitive(a, b, c[1..]);
        SubsequenceDropHead(a, c);
      }
    }
  }

  /** Every element of a subsequence is an element of the sequence. */
  lemma {:induction false} SubsequenceMembers<T>(a: seq<T>, b: seq<T>)
    requires IsSubsequence(a, b)
    ensures forall x :: x in a ==> x in b
    decreases |b|
  {
    if a != [] && b != [] {
      if a[0] == b[0] {
        SubsequenceMembers(a[1..], b[1..]);
        assert forall x :: x in a ==> x == a[0] || x in a[1..];
      } else {
        SubsequenceMembers(a, b[1..]);
      }
    }
  }

  /** The checkbox toggle of the pages: a present element is removed (every
      copy), an absent one appended. */
  function Toggle<T(==,!new)>(selected: seq<T>, x: T): (r: seq<T>)
    ensures x in selected ==> x !in r
    ensures x !in selected ==> r == selected + [x]
    ensures forall y :: y != x ==> (y in r <==> y in selected)
  {
    if x in selected then Filter((y: T) => y != x, selected) else selected + [x]
  }

  /** Toggling an absent element twice gives back the selection; toggling any
      element twice gives back the same set of selected elements. */
  lemma ToggleTwice<T(!new)>(selected: seq<T>, x: T)
    ensures x !in selected ==> Toggle(Toggle(selected, x), x) == selected
    ensures forall y :: y in Toggle(Toggle(selected, x), x) <==> y in selected
  {
    if x !in selected {
      FilterAll((y: T) => y != x, selected);
      FilterAppendRejected((y: T) => y != x, selected, x);
    }
  }

  lemma {:induction false} FilterAppendRejected<T(!new)>(p: T -> bool, s: seq<T>, x: T)
    requires !p(x)
    ensures Filter(p, s + [x]) == Filter(p, s)
  {
    if s == [] {
      assert [] + [x] == [x];
      assert [x][1..] == [];
    } else {
      var t := s + [x];
      assert t[0] == s[0];
      assert t[1..] == s[1..] + [x];
      FilterAppendRejected(p, s[1..], x);
      if p(s[0]) {
        assert Filter(p, t) == [s[0]] + Filter(p, t[1..]);
      } else {
        assert Filter(p, t) == Filter(p, t[1..]);
      }
    }
  }

  /** No element occurs twice. */
  ghost predicate Unique<T>(s: seq<T>)
  {
    forall i, j :: 0 <= i < j < |s| ==> s[i] != s[j]
  }

  /** A selection without repeats keeps none after a toggle. */
  lemma ToggleKeepsUnique<T(!new)>(selected: seq<T>, x: T)
    requires Unique(selected)
    ensures Unique(Toggle(selected, x))
  {
    if x in selected {
      FilterKeepsUnique((y: T) => y != x, selected);
    }
  }

  lemma {:induction false} FilterKeepsUnique<T(!new)>(p: T -> bool, s: seq<T>)
    requires Unique(s)
    ensures Unique(Filter(p, s))
  {
    if s != [] {
      UniqueSplit(s);
      FilterKeepsUnique(p, s[1..]);
      var rest := Filter(p, s[1..]);
      if p(s[0]) {
        assert Filter(p, s) == [s[0]] + rest;
        UniqueCons(s[0], rest);
      } else {
        assert Filter(p, s) == rest;
      }
    }
  }

  /** A sequence without repeats: its tail has none, and its head is not in
      its tail. */
  lemma UniqueSplit<T>(s: seq<T>)
    requires s != [] && Unique(s)
    ensures Unique(s[1..]) && s[0] !in s[1..]
  {
    forall i, j | 0 <= i < j < |s[1..]| ensures s[1..][i] != s[1..][j] {
      assert s[1..][i] == s[i + 1] && s[1..][j] == s[j + 1];
    }
    forall k | 0 <= k < |s[1..]| ensures s[1..][k] != s[0] {
      assert s[1..][k] == s[k + 1];
    }
  }

  /** Putting a new element in front of a sequence without repeats keeps it so. */
  lemma UniqueCons<T>(x: T, rest: seq<T>)
    requires Unique(rest) && x !in rest
    ensures Unique([x] + rest)
  {
    var r := [x] + rest;
    forall i, j | 0 <= i < j < |r| ensures r[i] != r[j] {
      assert r[j] == rest[j - 1];
      if i > 0 {
        assert r[i] == rest[i - 1];
      }
    }
  }

  /** Filtering with a predicate that holds everywhere changes nothing. */
  lemma {:induction false} FilterAll<T(!new)>(p: T -> bool, s: seq<T>)
    requires forall i :: 0 <= i < |s| ==> p(s[i])
    ensures Filter(p, s) == s
    decreases |s|
  {
    if s != [] {
      FilterAll(p, s[1..]);
    }
  }

  /** Filtering twice with the same predicate is filtering once. */
  lemma {:induction false} FilterIdempotent<T(!new)>(p: T -> bool, s: seq<T>)
    ensures Filter(p, Filter(p, s)) == Filter(p, s)
  {
    FilterAll(p, Filter(p, s));
  }

  /** An element goes to exactly one of a filter and the opposite filter. */
  lemma {:induction false} FilterComplementLength<T(!new)>(p: T -> bool, q: T -> bool, s: seq<T>)
    requires forall x :: q(x) == !p(x)
    ensures |Filter(p, s)| + |Filter(q, s)| == |s|
    decreases |s|
  {
    if s != [] {
      FilterComplementLength(p, q, s[1..]);
    }
  }

  /** Two filters can be applied in either order. */
  lemma {:induction false} FilterCommute<T(!new)>(p: T -> bool, q: T -> bool, s: seq<T>)
    ensures Filter(p, Filter(q, s)) == Filter(q, Filter(p, s))
    decreases |s|
  {
    if s != [] {
      FilterCommute(p, q, s[1..]);
    }
  }

  /** Number of elements satisfying `p`. */
  function Count<T(!new)>(p: T -> bool, s: seq<T>): (n: nat)
    ensures n == |Filter(p, s)|
  {
    if s == [] then 0
    else (if p(s[0]) then 1 else 0) + Count(p, s[1..])
  }

  /** Elements present in a sequence, without repetition, in first-occurrence order. */
  function Distinct<T(==,!new)>(s: seq<T>): (r: seq<T>)
    ensures |r| <= |s|
    ensures forall x :: x in r <==> x in s
    ensures forall i, j :: 0 <= i < j < |r| ==> r[i] != r[j]
    decreases |s|
  {
    if s == [] then []
    else
      var rest := Distinct(s[..|s| - 1]);
      if s[|s| - 1] in rest then rest else rest + [s[|s| - 1]]
  }

  /** Array.prototype.findIndex: the first position whose element satisfies `p`. */
  function FindFirst<T>(p: T -> bool, s: seq<T>): (k: Option<nat>)
    ensures k.Some? ==> k.value < |s| && p(s[k.value])
    ensures k.Some? ==> forall i :: 0 <= i < k.value ==> !p(s[i])
    ensures k.None? ==> forall i :: 0 <= i < |s| ==> !p(s[i])
  {
    if s == [] then None
    else if p(s[0]) then Some(0)
    else match FindFirst(p, s[1..])
      case None => None
      case Some(k) => Some(k + 1)
  }

  /** min(a, b) on reals (Math.min). */
  function MinReal(a: real, b: real): real { if a <= b then a else b }

  function AbsReal(x: real): real { if x < 0.0 then -x else x }
}
