/** Small shared vocabulary: an optional value (Kotlin's nullable types),
    the voice-activity status reported for a peer, and the sequence
    helpers the roster and the simulcast configuration both use. */
module Common {

  /** A Kotlin/Java nullable value. */
  datatype Option<+T> = None | Some(value: T)

  /** Voice-activity status of a peer (`VadStatus` of the RTC library). */
  datatype VadStatus = Speech | Silence

  /** `m[k]` on a Kotlin map: null when the key is absent. */
  function Get<K, V>(m: map<K, V>, k: K): (r: Option<V>)
    ensures r.Some? <==> k in m
    ensures r.Some? ==> r.value == m[k]
  {
    if k in m then Some(m[k]) else None
  }

  /** No element occurs twice. */
  predicate NoDuplicates<T(==)>(s: seq<T>) {
    forall i, j :: 0 <= i < j < |s| ==> s[i] != s[j]
  }

  /** `s` with every occurrence of `x` dropped, the rest kept in order
      (Kotlin's `filter { it != x }`). */
  function Without<T(==,!new)>(s: seq<T>, x: T): (r: seq<T>)
    ensures forall y :: y in r <==> y in s && y != x
    ensures |r| <= |s|
    ensures NoDuplicates(s) ==> NoDuplicates(r)
    ensures x !in s ==> |r| == |s|
    ensures x in s && NoDuplicates(s) ==> |r| == |s| - 1
  {
    if s == [] then []
    else
      var rest := Without(s[1..], x);
      assert NoDuplicates(s) ==> s[0] !in s[1..] && NoDuplicates(s[1..]) by {
        if NoDuplicates(s) {
          forall k | 0 <= k < |s[1..]| ensures s[1..][k] != s[0] {
            assert s[1..][k] == s[k + 1];
          }
        }
      }
      if s[0] == x then rest else [s[0]] + rest
  }

  /** Dropping an element that does not occur changes nothing. */
  lemma {:induction false} WithoutAbsent<T(!new)>(s: seq<T>, x: T)
    requires x !in s
    ensures Without(s, x) == s
  {
    if s != [] {
      WithoutAbsent(s[1..], x);
    }
  }

  /** Dropping the element just appended gives back the original when it
      did not occur before. */
  lemma WithoutAppended<T(!new)>(s: seq<T>, x: T)
    requires x !in s
    ensures Without(s + [x], x) == s
  {
    WithoutDistributes(s, [x], x);
    WithoutAbsent(s, x);
  }

  /** Filtering distributes over concatenation. */
  lemma {:induction false} WithoutDistributes<T(!new)>(s: seq<T>, t: seq<T>, x: T)
    ensures Without(s + t, x) == Without(s, x) + Without(t, x)
  {
    if s != [] {
      assert (s + t)[1..] == s[1..] + t;
      WithoutDistributes(s[1..], t, x);
    } else {
      assert s + t == t;
    }
  }
}
