/** Shared vocabulary of the e-commerce backend model: identifiers, optional
    values, the typed failures the services throw, Java's String.trim, and
    exact sums of prices over sets. */
module Common {

  /** A database identity (JPA `Long` id). */
  type Id = nat

  /** An abstract timestamp standing for `LocalDateTime.now()`. */
  type Time = int

  /** An exact decimal amount (`BigDecimal`). */
  type Money = real

  /** Java `null` or a value. */
  datatype Option<+T> = None | Some(value: T) {
    function GetOr(default: T): T {
      if Some? then value else default
    }
  }

  /** A service call either returns a value or throws one of the failures below. */
  datatype Result<+T> = Ok(value: T) | Err(error: Error)

  /** Which `IllegalArgumentException` a validation threw. */
  datatype Invalid =
    | NullUserId | EmptyProductIds
    | NullProduct | BlankProductName | BadPrice
    | NullUser | BlankUsername | BlankEmail | BlankPassword | ShortPassword

  datatype Error =
    | IllegalArgument(reason: Invalid)
    /** The "... not found with id: ..." RuntimeExceptions. */
    | ProductNotFound(id: Id)
    | UserNotFound(id: Id)
    | OrderNotFound(id: Id)
    | PaymentNotFound(id: Id)
    | ProductsNotFound
    | InsufficientStock(available: int, requested: int)
    | PaymentExists(orderId: Id)
    /** The database refuses to delete a product a cart's join table holds. */
    | ProductInCart(id: Id)
    | NotPending
    | NotRefundable
    /** `BigDecimal::add` applied to a null price throws a NullPointerException. */
    | NullPrice
    /** A Spring Data query declared to return one row found several. */
    | NonUniqueResult

  // ---------------------------------------------------------------------------
  // java.lang.String.trim: strips every leading and trailing char <= U+0020.

  predicate IsTrimmable(c: char) {
    c <= ' '
  }

  function TrimStart(s: string): (r: string)
    ensures |r| <= |s| && r == s[|s| - |r|..]
    ensures r == [] || !IsTrimmable(r[0])
    ensures forall i :: 0 <= i < |s| - |r| ==> IsTrimmable(s[i])
  {
    if s != [] && IsTrimmable(s[0]) then TrimStart(s[1..]) else s
  }

  function TrimEnd(s: string): (r: string)
    ensures |r| <= |s| && r == s[..|r|]
    ensures r == [] || !IsTrimmable(r[|r| - 1])
    ensures forall i :: |r| <= i < |s| ==> IsTrimmable(s[i])
  {
    if s != [] && IsTrimmable(s[|s| - 1]) then TrimEnd(s[..|s| - 1]) else s
  }

  /** `String.trim`: the longest slice of `s` that neither starts nor ends
      with a char at most U+0020; everything cut off is such a char. */
  function Trim(s: string): (r: string)
    ensures r == [] || (!IsTrimmable(r[0]) && !IsTrimmable(r[|r| - 1]))
    ensures exists i, j :: 0 <= i <= j <= |s| && r == s[i..j] && AllTrimmable(s[..i]) && AllTrimmable(s[j..])
  {
    var t := TrimStart(s);
    var r := TrimEnd(t);
    TrimSlice(s, t, r);
    r
  }

  /** Where the trimmed string sits in `s`, and what is cut off around it,
      from what `TrimStart` and `TrimEnd` promise. */
  lemma TrimSlice(s: string, t: string, r: string)
    requires |t| <= |s| && t == s[|s| - |t|..] && forall k :: 0 <= k < |s| - |t| ==> IsTrimmable(s[k])
    requires |r| <= |t| && r == t[..|r|] && forall k :: |r| <= k < |t| ==> IsTrimmable(t[k])
    ensures |s| - |t| + |r| <= |s| && r == s[|s| - |t|..|s| - |t| + |r|]
    ensures AllTrimmable(s[..|s| - |t|]) && AllTrimmable(s[|s| - |t| + |r|..])
  {
    var i, j := |s| - |t|, |s| - |t| + |r|;
    forall k | 0 <= k < |r| ensures r[k] == s[i + k] {
      assert r[k] == t[k] && t[k] == s[i + k];
    }
    forall k | 0 <= k < i ensures IsTrimmable(s[..i][k]) {
      assert s[..i][k] == s[k];
    }
    forall k | 0 <= k < |s| - j ensures IsTrimmable(s[j..][k]) {
      assert s[j..][k] == t[|r| + k];
    }
  }

  /** Every char of `s` is one `trim` strips. */
  predicate AllTrimmable(s: string) {
    forall k :: 0 <= k < |s| ==> IsTrimmable(s[k])
  }

  /** `s.trim().isEmpty()` */
  predicate IsBlank(s: string) {
    Trim(s) == []
  }

  /** `s == null || s.trim().isEmpty()`, the guard used by every validation. */
  predicate NullOrBlank(s: Option<string>) {
    s.None? || IsBlank(s.value)
  }

  /** Trimming a trimmed string changes nothing. */
  lemma TrimIdempotent(s: string)
    ensures Trim(Trim(s)) == Trim(s)
  {
    var r := Trim(s);
    assert TrimStart(r) == r;
    assert TrimEnd(r) == r;
  }

  /** A string is blank exactly when every one of its chars is trimmable. */
  lemma BlankIffAllTrimmable(s: string)
    ensures IsBlank(s) <==> AllTrimmable(s)
  {
    if AllTrimmable(s) {
      AllTrimmableTrimsAway(s);
    } else {
      var k :| 0 <= k < |s| && !IsTrimmable(s[k]);
      NotBlank(s, k);
    }
  }

  /** A char that `trim` does not strip survives it. */
  lemma NotBlank(s: string, k: nat)
    requires k < |s| && !IsTrimmable(s[k])
    ensures Trim(s) != []
  {
    var t := TrimStart(s);
    assert k >= |s| - |t|;
    assert t[k - (|s| - |t|)] == s[k];
    assert TrimEnd(t) != [];
  }

  lemma {:induction false} AllTrimmableTrimsAway(s: string)
    requires AllTrimmable(s)
    ensures TrimStart(s) == []
  {
    if s != [] {
      assert AllTrimmable(s[1..]) by {
        forall k | 0 <= k < |s| - 1 ensures IsTrimmable(s[1..][k]) {
          assert s[1..][k] == s[k + 1];
        }
      }
      AllTrimmableTrimsAway(s[1..]);
    }
  }

  // ---------------------------------------------------------------------------
  // Exact sums over sets: the value of `stream().map(f).reduce(ZERO, add)`
  // over a HashSet, whose iteration order is unspecified.

  ghost function Pick<T>(s: set<T>): T
    requires s != {}
  {
    var x :| x in s; x
  }

  ghost function Sum<T>(s: set<T>, f: T -> Money): Money
    decreases s
  {
    if s == {} then 0.0 else var x := Pick(s); f(x) + Sum(s - {x}, f)
  }

  /** Any element can be taken out first: the sum does not depend on the
      order in which the set is traversed. */
  lemma {:induction false} SumPick<T>(s: set<T>, f: T -> Money, y: T)
    requires y in s
    ensures Sum(s, f) == f(y) + Sum(s - {y}, f)
    decreases s
  {
    var x := Pick(s);
    if x != y {
      SumPick(s - {x}, f, y);
      SumPick(s - {y}, f, x);
      assert s - {x} - {y} == s - {y} - {x};
    }
  }

  /** Adding an element to a set adds its value to the sum, once. */
  lemma SumInsert<T>(s: set<T>, f: T -> Money, y: T)
    ensures Sum(s + {y}, f) == if y in s then Sum(s, f) else Sum(s, f) + f(y)
  {
    if y !in s {
      SumPick(s + {y}, f, y);
      assert s + {y} - {y} == s;
    } else {
      assert s + {y} == s;
    }
  }

  /** Removing an element subtracts its value, if it was there. */
  lemma SumRemove<T>(s: set<T>, f: T -> Money, y: T)
    ensures Sum(s - {y}, f) == if y in s then Sum(s, f) - f(y) else Sum(s, f)
  {
    if y in s {
      SumPick(s, f, y);
    } else {
      assert s - {y} == s;
    }
  }

  /** The reduce loop: accumulates `f` over the set, starting from zero. */
  method SumOf<T(==)>(s: set<T>, f: T -> Money) returns (total: Money)
    ensures total == Sum(s, f)
  {
    total := 0.0;
    var rest := s;
    while rest != {}
      invariant total + Sum(rest, f) == Sum(s, f)
      decreases rest
    {
      var x :| x in rest;
      SumPick(rest, f, x);
      total := total + f(x);
      rest := rest - {x};
    }
  }
}
