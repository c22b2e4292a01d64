/**
 * The two address lists of a multi-address wallet and the pure list
 * operations the wallet methods perform on them: sealing and opening every
 * record (encrypt / unlock), relabelling, and moving a record to the front.
 */
module WalletLists {
  import opened Wrappers
  import opened Sealing

  /** One key-pair of the wallet, as held decrypted in memory. */
  datatype AddressRecord = AddressRecord(
    address: string,
    publicKey: string,
    privateKey: string,
    labelText: string,
    timestamp: int)

  /** One entry of the persisted address list: a plaintext record or a ciphertext. */
  datatype Stored = Plain(rec: AddressRecord) | Blob(blob: Sealed<AddressRecord>)

  /** Entry `e` decrypts under `pw`: it is a ciphertext sealed with `pw`. */
  predicate Opens(pw: string, e: Stored) {
    e.Blob? && e.blob.key == pw
  }

  /** The persisted form of a plaintext wallet: every record stored as it is. */
  function Plains(recs: seq<AddressRecord>): seq<Stored> {
    seq(|recs|, i requires 0 <= i < |recs| => Plain(recs[i]))
  }

  /** The persisted list an encryption with `pw` produces: one ciphertext per record, in order. */
  function SealAll(pw: string, recs: seq<AddressRecord>): seq<Stored> {
    seq(|recs|, i requires 0 <= i < |recs| => Blob(Seal(pw, recs[i])))
  }

  /**
   * Decrypts every persisted entry with `pw`, in order; `None` when any
   * entry fails to decrypt (a wrong password, or a plaintext entry).
   */
  function OpenAll(pw: string, stored: seq<Stored>): Option<seq<AddressRecord>> {
    if forall i :: 0 <= i < |stored| ==> Opens(pw, stored[i])
    then Some(seq(|stored|, i requires 0 <= i < |stored| && Opens(pw, stored[i]) => stored[i].blob.content))
    else None
  }

  /** Encrypt then unlock: the records come back in order under the right password, and not under any other. */
  lemma OpenSealAll(pw: string, pw': string, recs: seq<AddressRecord>)
    ensures OpenAll(pw', SealAll(pw, recs)) == if pw' == pw || recs == [] then Some(recs) else None
  {
    var sealed := SealAll(pw, recs);
    if pw' == pw {
      assert forall i :: 0 <= i < |sealed| ==> Opens(pw, sealed[i]);
      assert OpenAll(pw, sealed).value == recs;
    } else if recs != [] {
      assert sealed[0] == Blob(Seal(pw, recs[0]));
      assert !Opens(pw', sealed[0]);
      assert OpenAll(pw', sealed).None?;
    } else {
      assert OpenAll(pw', sealed).value == [];
    }
  }

  /** A record with `newLabel` in place of its label when its address is `address`. */
  function Relabelled(rec: AddressRecord, address: string, newLabel: string): AddressRecord {
    if rec.address == address then rec.(labelText := newLabel) else rec
  }

  /** The in-memory list after `set_label(address, newLabel)`. */
  function Relabel(recs: seq<AddressRecord>, address: string, newLabel: string): (r: seq<AddressRecord>)
    ensures |r| == |recs|
    ensures forall i {:trigger r[i]} :: 0 <= i < |r| ==> r[i].address == recs[i].address
    ensures forall i {:trigger r[i]} :: 0 <= i < |r| && recs[i].address == address ==> r[i] == recs[i].(labelText := newLabel)
    ensures forall i {:trigger r[i]} :: 0 <= i < |r| && recs[i].address != address ==> r[i] == recs[i]
  {
    seq(|recs|, i requires 0 <= i < |recs| => Relabelled(recs[i], address, newLabel))
  }

  /** `f` applied to every element, in order. */
  function Mapped<T, U>(xs: seq<T>, f: T -> U): (r: seq<U>)
    ensures |r| == |xs|
  {
    seq(|xs|, i requires 0 <= i < |xs| => f(xs[i]))
  }

  /** Mapping a concatenation maps each part. */
  lemma MappedConcat<T, U>(xs: seq<T>, ys: seq<T>, f: T -> U)
    ensures Mapped(xs + ys, f) == Mapped(xs, f) + Mapped(ys, f)
  {
  }

  /** Taking out the element at `j` takes one of it out of the multiset. */
  lemma RemoveAt<T>(ys: seq<T>, j: nat)
    requires j < |ys|
    ensures multiset(ys[..j] + ys[j + 1..]) == multiset(ys) - multiset{ys[j]}
  {
    assert ys == ys[..j] + [ys[j]] + ys[j + 1..];
  }

  /** Taking out the element at `j` takes its image out of the mapped multiset. */
  lemma MappedRemove<T, U>(ys: seq<T>, j: nat, f: T -> U)
    requires j < |ys|
    ensures multiset(Mapped(ys, f)) == multiset(Mapped(ys[..j] + ys[j + 1..], f)) + multiset{f(ys[j])}
  {
    var pre, post := ys[..j], ys[j + 1..];
    assert ys == pre + ([ys[j]] + post);
    MappedConcat(pre, [ys[j]] + post, f);
    MappedConcat([ys[j]], post, f);
    MappedConcat(pre, post, f);
    assert Mapped([ys[j]], f) == [f(ys[j])];
  }

  /** Two lists with the same elements still have the same elements once the first of one is taken out of both. */
  lemma RemovePair<T>(xs: seq<T>, ys: seq<T>) returns (j: nat)
    requires multiset(xs) == multiset(ys) && xs != []
    ensures j < |ys| && ys[j] == xs[0]
    ensures multiset(xs[..0] + xs[1..]) == multiset(ys[..j] + ys[j + 1..])
  {
    assert xs[0] in multiset(ys);
    j :| 0 <= j < |ys| && ys[j] == xs[0];
    RemoveAt(ys, j);
    RemoveAt(xs, 0);
  }

  /** Mapping works element by element, so lists with the same elements map to lists with the same elements. */
  lemma {:induction false} MappedMultiset<T, U>(xs: seq<T>, ys: seq<T>, f: T -> U)
    requires multiset(xs) == multiset(ys)
    ensures multiset(Mapped(xs, f)) == multiset(Mapped(ys, f))
    decreases |xs|
  {
    if xs != [] {
      var j := RemovePair(xs, ys);
      MappedMultiset(xs[..0] + xs[1..], ys[..j] + ys[j + 1..], f);
      MappedRemove(xs, 0, f);
      MappedRemove(ys, j, f);
    } else {
      assert |multiset(ys)| == 0;
      assert ys == [];
    }
  }

  /**
   * Relabelling works record by record, so two lists holding the same records
   * (in any order) still hold the same records once relabelled.
   */
  lemma RelabelMultiset(xs: seq<AddressRecord>, ys: seq<AddressRecord>, address: string, newLabel: string)
    requires multiset(xs) == multiset(ys)
    ensures multiset(Relabel(xs, address, newLabel)) == multiset(Relabel(ys, address, newLabel))
  {
    var f := (r: AddressRecord) => Relabelled(r, address, newLabel);
    assert Relabel(xs, address, newLabel) == Mapped(xs, f);
    assert Relabel(ys, address, newLabel) == Mapped(ys, f);
    MappedMultiset(xs, ys, f);
  }

  /** Some record of `recs` has address `a`. */
  predicate HasAddress(recs: seq<AddressRecord>, a: string) {
    exists i :: 0 <= i < |recs| && recs[i].address == a
  }

  /** The index of the first record of `a`: the one the enumerate-and-break loops stop at. */
  function FirstIndex(recs: seq<AddressRecord>, a: string): (k: nat)
    requires HasAddress(recs, a)
    ensures k < |recs| && recs[k].address == a
    ensures forall j :: 0 <= j < k ==> recs[j].address != a
  {
    if recs[0].address == a then 0
    else
      assert HasAddress(recs[1..], a) by {
        var i :| 0 <= i < |recs| && recs[i].address == a;
        assert recs[1..][i - 1].address == a;
      }
      1 + FirstIndex(recs[1..], a)
  }

  /** Relabelling keeps the addresses, and so the address set, unchanged. */
  lemma RelabelKeepsAddresses(recs: seq<AddressRecord>, address: string, newLabel: string, a: string)
    ensures HasAddress(recs, a) <==> HasAddress(Relabel(recs, address, newLabel), a)
  {
    var r := Relabel(recs, address, newLabel);
    if HasAddress(recs, a) {
      var i :| 0 <= i < |recs| && recs[i].address == a;
      assert r[i].address == a;
    }
    if HasAddress(r, a) {
      var i :| 0 <= i < |r| && r[i].address == a;
      assert recs[i].address == a;
    }
  }

  /**
   * Re-encrypts, under `pw`, a persisted ciphertext that opens with `pw` to a
   * record of `address`, carrying the new label; any other entry stays.
   */
  function Resealed(pw: string, e: Stored, address: string, newLabel: string): Stored {
    if Opens(pw, e) && e.blob.content.address == address
    then Blob(Seal(pw, e.blob.content.(labelText := newLabel))) else e
  }

  /** Every persisted entry re-sealed with the new label where it belongs to `address`. */
  function ResealLabel(pw: string, stored: seq<Stored>, address: string, newLabel: string): seq<Stored> {
    seq(|stored|, i requires 0 <= i < |stored| => Resealed(pw, stored[i], address, newLabel))
  }

  /** Relabelling the ciphertexts is relabelling what they decrypt to: no record is lost or swapped. */
  lemma OpenResealLabel(pw: string, stored: seq<Stored>, address: string, newLabel: string)
    ensures OpenAll(pw, ResealLabel(pw, stored, address, newLabel)) ==
      match OpenAll(pw, stored)
      case None => None
      case Some(recs) => Some(Relabel(recs, address, newLabel))
  {
    var r := ResealLabel(pw, stored, address, newLabel);
    assert forall i :: 0 <= i < |stored| ==> (Opens(pw, r[i]) <==> Opens(pw, stored[i]));
    match OpenAll(pw, stored)
    case None =>
      var i :| 0 <= i < |stored| && !Opens(pw, stored[i]);
      assert !Opens(pw, r[i]);
    case Some(recs) =>
      assert OpenAll(pw, r).value == Relabel(recs, address, newLabel);
  }

  /** The list after `insert(0, pop(i))`. */
  function MoveToFront<T>(s: seq<T>, i: nat): (r: seq<T>)
    requires i < |s|
    ensures |r| == |s| && r[0] == s[i]
  {
    [s[i]] + s[..i] + s[i + 1..]
  }

  /** Moving to the front is a permutation that keeps the other elements in their relative order. */
  lemma MoveToFrontPermutes<T>(s: seq<T>, i: nat)
    requires i < |s|
    ensures multiset(MoveToFront(s, i)) == multiset(s)
    ensures forall j :: 0 <= j < i ==> MoveToFront(s, i)[j + 1] == s[j]
    ensures forall j :: i < j < |s| ==> MoveToFront(s, i)[j] == s[j]
  {
    assert s == s[..i] + [s[i]] + s[i + 1..];
  }

  /** Moving a plaintext record to the front of both lists keeps them parallel. */
  lemma MoveToFrontPlains(recs: seq<AddressRecord>, i: nat)
    requires i < |recs|
    ensures MoveToFront(Plains(recs), i) == Plains(MoveToFront(recs, i))
  {
    var l, r := MoveToFront(Plains(recs), i), Plains(MoveToFront(recs, i));
    MoveToFrontPermutes(recs, i);
    MoveToFrontPermutes(Plains(recs), i);
    forall j | 0 <= j < |recs| ensures l[j] == r[j] {
      if 0 < j <= i {
        assert l[(j - 1) + 1] == Plains(recs)[j - 1];
        assert MoveToFront(recs, i)[(j - 1) + 1] == recs[j - 1];
      }
    }
  }

  /** Index of the first record of `address`, or -1 (the enumerate-and-break loops). */
  method IndexOfAddress(recs: seq<AddressRecord>, address: string) returns (k: int)
    ensures -1 <= k < |recs|
    ensures k == -1 <==> forall j :: 0 <= j < |recs| ==> recs[j].address != address
    ensures k >= 0 ==> recs[k].address == address && forall j :: 0 <= j < k ==> recs[j].address != address
    ensures k >= 0 ==> HasAddress(recs, address) && k == FirstIndex(recs, address)
  {
    k := 0;
    while k < |recs|
      invariant 0 <= k <= |recs|
      invariant forall j :: 0 <= j < k ==> recs[j].address != address
    {
      if recs[k].address == address {
        return;
      }
      k := k + 1;
    }
    k := -1;
  }

  /** Index of the first plaintext persisted entry of `address`, or -1. */
  method IndexOfStored(stored: seq<Stored>, address: string) returns (k: int)
    ensures -1 <= k < |stored|
    ensures k == -1 <==> forall j :: 0 <= j < |stored| ==> !(stored[j].Plain? && stored[j].rec.address == address)
    ensures k >= 0 ==> stored[k].Plain? && stored[k].rec.address == address
    ensures k >= 0 ==> forall j :: 0 <= j < k ==> !(stored[j].Plain? && stored[j].rec.address == address)
  {
    k := 0;
    while k < |stored|
      invariant 0 <= k <= |stored|
      invariant forall j :: 0 <= j < k ==> !(stored[j].Plain? && stored[j].rec.address == address)
    {
      if stored[k].Plain? && stored[k].rec.address == address {
        return;
      }
      k := k + 1;
    }
    k := -1;
  }

  /** Encrypts the records one by one into a fresh list (the loop of `encrypt`). */
  method SealRecords(pw: string, recs: seq<AddressRecord>) returns (out: seq<Stored>)
    ensures |out| == |recs|
    ensures forall i :: 0 <= i < |recs| ==> Opens(pw, out[i]) && out[i].blob.content == recs[i]
    ensures out == SealAll(pw, recs)
  {
    out := [];
    var i := 0;
    while i < |recs|
      invariant 0 <= i <= |recs| && |out| == i
      invariant forall j :: 0 <= j < i ==> out[j] == Blob(Seal(pw, recs[j]))
    {
      out := out + [Blob(Seal(pw, recs[i]))];
      i := i + 1;
    }
  }

  /**
   * Decrypts the persisted entries one by one into a fresh list (the loop of
   * `unlock`); `None` as soon as one entry does not open with `pw`.
   */
  method OpenRecords(pw: string, stored: seq<Stored>) returns (r: Option<seq<AddressRecord>>)
    ensures r.None? <==> exists i :: 0 <= i < |stored| && !Opens(pw, stored[i])
    ensures r.Some? ==> |r.value| == |stored| && forall i :: 0 <= i < |stored| ==> r.value[i] == stored[i].blob.content
    ensures r == OpenAll(pw, stored)
  {
    var acc: seq<AddressRecord> := [];
    var i := 0;
    while i < |stored|
      invariant 0 <= i <= |stored| && |acc| == i
      invariant forall j :: 0 <= j < i ==> Opens(pw, stored[j]) && acc[j] == stored[j].blob.content
    {
      var e := stored[i];
      if !e.Blob? {
        assert !Opens(pw, stored[i]);
        return None;
      }
      match Open(pw, e.blob)
      case None =>
        assert !Opens(pw, stored[i]);
        return None;
      case Some(rec) =>
        acc := acc + [rec];
      i := i + 1;
    }
    assert acc == OpenAll(pw, stored).value;
    r := Some(acc);
  }
}
