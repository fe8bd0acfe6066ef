/** `generateTransactionId`: "TXN_" followed by the first twelve hex digits
    of a random UUID, upper-cased. The UUID's bits are a parameter. */
module TransactionIds {

  /** Four random bits of a UUID. */
  type Nibble = n: nat | n < 16

  /** A UUID as its 32 hex digits, most significant first. */
  type Uuid = u: seq<Nibble> | |u| == 32 witness seq(32, _ => 0)

  const Prefix: string := "TXN_"

  /** `UUID.toString` prints lower-case digits. */
  function HexDigit(n: Nibble): (c: char)
    ensures c in "0123456789abcdef"
  {
    "0123456789abcdef"[n]
  }

  function UpperHexDigit(n: Nibble): (c: char)
    ensures c in "0123456789ABCDEF"
  {
    "0123456789ABCDEF"[n]
  }

  function Hex(ns: seq<Nibble>): (s: string)
    ensures |s| == |ns| && forall i :: 0 <= i < |ns| ==> s[i] == HexDigit(ns[i])
  {
    seq(|ns|, i requires 0 <= i < |ns| => HexDigit(ns[i]))
  }

  function UpperHex(ns: seq<Nibble>): (s: string)
    ensures |s| == |ns| && forall i :: 0 <= i < |ns| ==> s[i] == UpperHexDigit(ns[i])
  {
    seq(|ns|, i requires 0 <= i < |ns| => UpperHexDigit(ns[i]))
  }

  /** `UUID.toString`: the 8-4-4-4-12 grouping separated by dashes. */
  function UuidString(u: Uuid): (s: string)
    ensures |s| == 36
    ensures s[8] == s[13] == s[18] == s[23] == '-'
  {
    Hex(u[..8]) + "-" + Hex(u[8..12]) + "-" + Hex(u[12..16]) + "-" + Hex(u[16..20]) + "-" + Hex(u[20..])
  }

  /** `s.replace(String.valueOf(c), "")`: every occurrence of `c` removed, the
      rest kept in order. */
  function RemoveAll(s: string, c: char): (r: string)
    ensures |r| <= |s| && c !in r
    ensures forall x :: x in r <==> x in s && x != c
  {
    if s == [] then [] else (if s[0] == c then [] else [s[0]]) + RemoveAll(s[1..], c)
  }

  /** `toUpperCase` on the ASCII letters; every other char is kept. */
  function ToUpper(s: string): (r: string)
    ensures |r| == |s|
    ensures forall i :: 0 <= i < |s| ==> r[i] == UpperChar(s[i])
  {
    seq(|s|, i requires 0 <= i < |s| => UpperChar(s[i]))
  }

  function GenerateTransactionId(u: Uuid): (r: string)
    ensures |r| == 16 && r[..4] == Prefix
  {
    var digits := RemoveAll(UuidString(u), '-');
    DashesRemoved(u);
    Prefix + ToUpper(digits[..12])
  }

  lemma {:induction false} RemoveAllAppend(a: string, b: string, c: char)
    ensures RemoveAll(a + b, c) == RemoveAll(a, c) + RemoveAll(b, c)
  {
    if a == [] {
      assert a + b == b;
    } else {
      assert (a + b)[0] == a[0] && (a + b)[1..] == a[1..] + b;
      RemoveAllAppend(a[1..], b, c);
    }
  }

  lemma {:induction false} RemoveAbsent(s: string, c: char)
    requires c !in s
    ensures RemoveAll(s, c) == s
  {
    if s != [] {
      assert c !in s[1..];
      RemoveAbsent(s[1..], c);
    }
  }

  lemma DashRemoved(x: string)
    ensures RemoveAll(x + "-", '-') == RemoveAll(x, '-')
  {
    RemoveAllAppend(x, "-", '-');
    assert RemoveAll("-", '-') == [];
  }

  lemma DashThen(x: string, y: string)
    requires '-' !in y
    ensures RemoveAll(x + "-" + y, '-') == RemoveAll(x, '-') + y
  {
    RemoveAllAppend(x + "-", y, '-');
    DashRemoved(x);
    RemoveAbsent(y, '-');
  }

  lemma HexSplit(u: seq<Nibble>, i: nat, j: nat, k: nat)
    requires i <= j <= k <= |u|
    ensures Hex(u[i..k]) == Hex(u[i..j]) + Hex(u[j..k])
  {
  }

  /** Dropping the dashes from the printed UUID leaves its 32 digits. */
  lemma DashesRemoved(u: Uuid)
    ensures RemoveAll(UuidString(u), '-') == Hex(u)
  {
    var a := Hex(u[..8]);
    RemoveAbsent(a, '-');
    DashThen(a, Hex(u[8..12]));
    HexSplit(u, 0, 8, 12);
    var b := a + "-" + Hex(u[8..12]);
    DashThen(b, Hex(u[12..16]));
    HexSplit(u, 0, 12, 16);
    var c := b + "-" + Hex(u[12..16]);
    DashThen(c, Hex(u[16..20]));
    HexSplit(u, 0, 16, 20);
    var d := c + "-" + Hex(u[16..20]);
    DashThen(d, Hex(u[20..]));
    HexSplit(u, 0, 20, 32);
    assert u[0..8] == u[..8] && u[20..32] == u[20..] && u[0..32] == u;
  }

  /** `toUpperCase` of one char, as `ToUpper` applies it. */
  function UpperChar(c: char): char {
    if 'a' <= c <= 'z' then (c as int - 32) as char else c
  }

  /** Upper-casing a printed digit gives the upper-case digit. */
  lemma UpperOfHexDigit(n: Nibble)
    ensures UpperChar(HexDigit(n)) == UpperHexDigit(n)
  {
  }

  /** Upper-casing printed hex digits prints them in upper case. */
  lemma ToUpperHex(ns: seq<Nibble>)
    ensures ToUpper(Hex(ns)) == UpperHex(ns)
  {
    forall i | 0 <= i < |ns| ensures ToUpper(Hex(ns))[i] == UpperHex(ns)[i] {
      UpperOfHexDigit(ns[i]);
    }
  }

  /** The generated id is the prefix and the first twelve digits of the
      UUID in upper case: it carries 48 of the UUID's bits and no others. */
  lemma TransactionIdDigits(u: Uuid)
    ensures GenerateTransactionId(u) == Prefix + UpperHex(u[..12])
  {
    DashesRemoved(u);
    assert Hex(u)[..12] == Hex(u[..12]);
    ToUpperHex(u[..12]);
  }

  /** Two UUIDs give the same transaction id exactly when their first twelve
      digits agree: the ids are not unique by construction. */
  lemma TransactionIdCollision(u: Uuid, v: Uuid)
    ensures GenerateTransactionId(u) == GenerateTransactionId(v) <==> u[..12] == v[..12]
  {
    TransactionIdDigits(u);
    TransactionIdDigits(v);
    SamePrefix(UpperHex(u[..12]), UpperHex(v[..12]));
    UpperHexInjective(u[..12], v[..12]);
  }

  lemma SamePrefix(x: string, y: string)
    ensures Prefix + x == Prefix + y <==> x == y
  {
    if Prefix + x == Prefix + y {
      assert x == (Prefix + x)[|Prefix|..] && y == (Prefix + y)[|Prefix|..];
    }
  }

  /** Distinct digit sequences print differently. */
  lemma UpperHexInjective(a: seq<Nibble>, b: seq<Nibble>)
    requires |a| == |b|
    ensures UpperHex(a) == UpperHex(b) ==> a == b
  {
    if UpperHex(a) == UpperHex(b) {
      forall i | 0 <= i < |a| ensures a[i] == b[i] {
        UpperHexDigitInjective(a[i], b[i]);
      }
    }
  }

  lemma UpperHexDigitInjective(a: Nibble, b: Nibble)
    requires UpperHexDigit(a) == UpperHexDigit(b)
    ensures a == b
  {
  }
}
