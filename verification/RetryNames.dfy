/** Names of retry jobs: `<base>__RETRY-<n>`. */
module RetryNames {
  import opened Prelude

  const MARKER := "__RETRY-"

  function Digit(d: nat): char
    requires d < 10
  {
    "0123456789"[d]
  }

  function Decimal(n: nat): string {
    if n < 10 then [Digit(n)] else Decimal(n / 10) + [Digit(n % 10)]
  }

  function ValueOf(s: string): nat {
    if s == [] then 0 else 10 * ValueOf(s[..|s| - 1]) + DigitValue(s[|s| - 1])
  }

  function DigitValue(c: char): nat {
    if '0' <= c <= '9' then (c - '0') as nat else 0
  }

  lemma DigitRoundTrip(d: nat)
    requires d < 10
    ensures DigitValue(Digit(d)) == d
  {
  }

  lemma {:induction false} DecimalRoundTrip(n: nat)
    ensures ValueOf(Decimal(n)) == n
  {
    if n < 10 {
      DigitRoundTrip(n);
      assert [Digit(n)][..0] == [];
      assert ValueOf([]) == 0;
    } else {
      DecimalRoundTrip(n / 10);
      DigitRoundTrip(n % 10);
      assert Decimal(n)[..|Decimal(n)| - 1] == Decimal(n / 10);
    }
  }

  function RetryName(base: string, n: nat): string {
    base + MARKER + Decimal(n)
  }

  /** Different attempts have different names. */
  lemma RetryNameInjective(base: string, m: nat, n: nat)
    ensures RetryName(base, m) == RetryName(base, n) ==> m == n
  {
    var k := |base + MARKER|;
    assert RetryName(base, m)[k..] == Decimal(m) && RetryName(base, n)[k..] == Decimal(n);
    DecimalRoundTrip(m);
    DecimalRoundTrip(n);
  }

  predicate MarkerAt(s: string, i: nat) {
    i + |MARKER| <= |s| && s[i..i + |MARKER|] == MARKER
  }

  /** The position of the first marker at or after `i`, or the end. */
  function FindMarker(s: string, i: nat): (r: nat)
    requires i <= |s|
    ensures i <= r <= |s|
    ensures forall k :: i <= k < r ==> !MarkerAt(s, k)
    ensures r < |s| ==> MarkerAt(s, r)
    decreases |s| - i
  {
    if i == |s| then i else if MarkerAt(s, i) then i else FindMarker(s, i + 1)
  }

  /** The name before the first marker. */
  function RetryBase(name: string): string {
    name[..FindMarker(name, 0)]
  }

  lemma MarkerSpells(s: string, k: nat, i: nat)
    ensures MarkerAt(s, k) && i < |MARKER| ==> s[k + i] == MARKER[i]
  {
    if MarkerAt(s, k) && i < |MARKER| {
      assert s[k..k + |MARKER|][i] == MARKER[i];
    }
  }

  lemma MarkerInside(b: string, rest: string, name: string, k: nat)
    requires b <= name && k + |MARKER| <= |b|
    ensures MarkerAt(b + rest, k) ==> MarkerAt(name, k)
  {
    assert (b + rest)[k..k + |MARKER|] == name[k..k + |MARKER|];
  }

  /** The base of a name holds no marker, not even one completed by the marker that follows it. */
  lemma BaseHasNoMarker(name: string, tail: string, k: nat)
    requires k < |RetryBase(name)|
    ensures !MarkerAt(RetryBase(name) + (MARKER + tail), k)
  {
    var b := RetryBase(name);
    var s := b + (MARKER + tail);
    assert s[|b|] == '_' && s[|b| + 1] == '_';
    if k + |MARKER| <= |b| {
      MarkerInside(b, MARKER + tail, name, k);
    } else {
      MarkerSpells(s, k, |b| - k);
      MarkerSpells(s, k, |b| - k + 1);
    }
  }

  /** Retrying a retry counts on from the same base name. */
  lemma RetryOfRetryKeepsBase(name: string, n: nat)
    ensures RetryBase(RetryName(RetryBase(name), n)) == RetryBase(name)
  {
    var b := RetryBase(name);
    var s := RetryName(b, n);
    assert s == b + (MARKER + Decimal(n));
    assert s[|b|..|b| + |MARKER|] == MARKER;
    assert MarkerAt(s, |b|);
    forall k | 0 <= k < |b|
      ensures !MarkerAt(s, k)
    {
      BaseHasNoMarker(name, Decimal(n), k);
    }
    assert FindMarker(s, 0) == |b|;
    assert s[..|b|] == b;
  }

  /** The smallest unused attempt number. */
  method NextRetryName(taken: set<string>, base: string) returns (name: string, n: nat)
    ensures n >= 1 && name == RetryName(base, n) && name !in taken
    ensures forall k :: 1 <= k < n ==> RetryName(base, k) in taken
  {
    n := 1;
    ghost var tried: set<string> := {};
    while RetryName(base, n) in taken
      invariant n >= 1 && tried <= taken && |tried| == n - 1
      invariant forall k :: 1 <= k < n ==> RetryName(base, k) in tried
      invariant forall t :: t in tried ==> exists k :: 1 <= k < n && t == RetryName(base, k)
      decreases |taken| + 1 - n
    {
      forall k | 1 <= k < n
        ensures RetryName(base, k) != RetryName(base, n)
      {
        RetryNameInjective(base, k, n);
      }
      tried := tried + {RetryName(base, n)};
      SubsetCardinality(tried, taken);
      n := n + 1;
    }
    name := RetryName(base, n);
  }
}
