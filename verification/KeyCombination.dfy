/**
 * Verification of a final multi-signature: the keys are sorted, then combined, and the signature is checked against
 * the combined key (native/src/multi_sig.rs). Combining keys and checking a signature are parameters.
 */
module KeyCombination {
  import opened Wrappers
  import opened Bytes

  /** A public key, given by its place in the order of keys. */
  type Key = nat

  /** Which signatures and messages can be read, combining keys, and checking against a combined key. */
  datatype Scheme = Scheme(
    readsSignature: Bytes -> bool,
    readsMessage: string -> bool,
    combine: seq<Key> -> Option<Key>,
    check: (Bytes, string, Key) -> bool)

  ghost predicate Sorted(keys: seq<Key>) {
    forall i, j :: 0 <= i < j < |keys| ==> keys[i] <= keys[j]
  }

  function Insert(k: Key, keys: seq<Key>): (r: seq<Key>)
    ensures multiset(r) == multiset(keys) + multiset{k}
  {
    if keys == [] || k <= keys[0] then [k] + keys
    else
      assert keys == [keys[0]] + keys[1..];
      [keys[0]] + Insert(k, keys[1..])
  }

  lemma MembersAtLeast(lo: Key, a: seq<Key>, b: seq<Key>, k: Key)
    requires multiset(a) == multiset(b) + multiset{k} && lo <= k && forall i :: 0 <= i < |b| ==> lo <= b[i]
    ensures forall i :: 0 <= i < |a| ==> lo <= a[i]
  {
    forall i | 0 <= i < |a|
      ensures lo <= a[i]
    {
      assert a[i] in multiset(a);
    }
  }

  lemma {:induction false} InsertKeepsSorted(k: Key, keys: seq<Key>)
    requires Sorted(keys)
    ensures Sorted(Insert(k, keys))
  {
    if keys != [] && k > keys[0] {
      InsertKeepsSorted(k, keys[1..]);
      MembersAtLeast(keys[0], Insert(k, keys[1..]), keys[1..], k);
    }
  }

  function Sort(keys: seq<Key>): (r: seq<Key>)
    ensures Sorted(r) && multiset(r) == multiset(keys)
  {
    if keys == [] then []
    else
      assert keys == [keys[0]] + keys[1..];
      InsertKeepsSorted(keys[0], Sort(keys[1..]));
      Insert(keys[0], Sort(keys[1..]))
  }

  lemma HeadIsLeast(a: seq<Key>, k: Key)
    requires Sorted(a) && k in multiset(a)
    ensures a != [] && a[0] <= k
  {
  }

  lemma WithoutHead(a: seq<Key>)
    requires a != []
    ensures multiset(a[1..]) == multiset(a) - multiset{a[0]}
  {
    assert a == [a[0]] + a[1..];
  }

  lemma SameHead(a: seq<Key>, b: seq<Key>)
    requires Sorted(a) && Sorted(b) && multiset(a) == multiset(b) && a != [] && b != []
    ensures a[0] == b[0] && multiset(a[1..]) == multiset(b[1..])
  {
    assert a[0] in multiset(a) && b[0] in multiset(b);
    HeadIsLeast(a, b[0]);
    HeadIsLeast(b, a[0]);
    WithoutHead(a);
    WithoutHead(b);
  }

  /** There is only one way to sort, so the order the keys came in is lost. */
  lemma {:induction false} SortedPermutationsAreEqual(a: seq<Key>, b: seq<Key>)
    requires Sorted(a) && Sorted(b) && multiset(a) == multiset(b)
    ensures a == b
  {
    assert |multiset(a)| == |a| && |multiset(b)| == |b|;
    if a != [] {
      SameHead(a, b);
      SortedPermutationsAreEqual(a[1..], b[1..]);
    }
  }

  datatype VerifyError = NotReady | UnreadableSignature | UnreadableMessage | UnableToCombine

  /** Sorting the argument in place, as the standard library does. */
  method SortInPlace(keys: array<Key>)
    modifies keys
    ensures keys[..] == Sort(old(keys[..]))
  {
    var sorted := Sort(keys[..]);
    assert |multiset(sorted)| == |sorted| && |multiset(keys[..])| == keys.Length;
    forall i | 0 <= i < keys.Length {
      keys[i] := sorted[i];
    }
  }

  method VerifyNative(scheme: Scheme, signature: Bytes, message: string, publicKeys: array<Key>)
      returns (r: Result<bool, VerifyError>)
    modifies publicKeys
    ensures r == Verification(scheme, signature, message, old(publicKeys[..]))
  {
    if !scheme.readsSignature(signature) {
      return Err(UnreadableSignature);
    }
    if !scheme.readsMessage(message) {
      return Err(UnreadableMessage);
    }
    SortInPlace(publicKeys);
    var combined := scheme.combine(publicKeys[..]);
    if combined == None {
      return Err(UnableToCombine);
    }
    r := Ok(scheme.check(signature, message, combined.value));
  }

  function Verification(scheme: Scheme, signature: Bytes, message: string, publicKeys: seq<Key>)
      : Result<bool, VerifyError>
  {
    if !scheme.readsSignature(signature) then Err(UnreadableSignature)
    else if !scheme.readsMessage(message) then Err(UnreadableMessage)
    else match scheme.combine(Sort(publicKeys))
    case None => Err(UnableToCombine)
    case Some(key) => Ok(scheme.check(signature, message, key))
  }

  /** Verification depends on which keys signed, not on the order in which a signer lists them. */
  lemma VerificationIgnoresOrder(scheme: Scheme, signature: Bytes, message: string, a: seq<Key>, b: seq<Key>)
    requires multiset(a) == multiset(b)
    ensures Sort(a) == Sort(b)
    ensures Verification(scheme, signature, message, a) == Verification(scheme, signature, message, b)
  {
    SortedPermutationsAreEqual(Sort(a), Sort(b));
  }

  /**
   * The outcome of verification, for the keys in ascending order: unreadable signature, unreadable message and failing
   * combination are reported in this order, and otherwise the answer is that of the check against the combined key.
   */
  lemma OutcomeOfVerification(
      scheme: Scheme, signature: Bytes, message: string, publicKeys: seq<Key>, ascending: seq<Key>)
    requires multiset(ascending) == multiset(publicKeys)
    requires forall i, j :: 0 <= i < j < |ascending| ==> ascending[i] <= ascending[j]
    ensures var (r, combined) := (Verification(scheme, signature, message, publicKeys), scheme.combine(ascending));
      && (r == Err(UnreadableSignature) <==> !scheme.readsSignature(signature))
      && (r == Err(UnreadableMessage) <==> scheme.readsSignature(signature) && !scheme.readsMessage(message))
      && (r == Err(UnableToCombine) <==>
            scheme.readsSignature(signature) && scheme.readsMessage(message) && combined == None)
      && (r == Ok(true) <==>
            && scheme.readsSignature(signature) && scheme.readsMessage(message)
            && combined.Some? && scheme.check(signature, message, combined.value))
      && r != Err(NotReady)
  {
    SortedPermutationsAreEqual(Sort(publicKeys), ascending);
  }

  /** The list a signer's builder makes: the co-signers in the order given, then the signer itself. */
  function SignerList(coSigners: seq<Key>, self: Key): seq<Key> {
    coSigners + [self]
  }

  /** Each of two signers that name the other signers in any order verifies a signature with the same outcome. */
  lemma EverySignerVerifiesAlike(
      scheme: Scheme, signature: Bytes, message: string, all: multiset<Key>,
      co1: seq<Key>, self1: Key, co2: seq<Key>, self2: Key)
    requires self1 in all && multiset(co1) == all - multiset{self1}
    requires self2 in all && multiset(co2) == all - multiset{self2}
    ensures Verification(scheme, signature, message, SignerList(co1, self1))
         == Verification(scheme, signature, message, SignerList(co2, self2))
  {
    VerificationIgnoresOrder(scheme, signature, message, SignerList(co1, self1), SignerList(co2, self2));
  }
}
