/**
 * The multi-address wallet (class MultiWallet of multiwallet.py): a
 * lock/encryption state machine over the decrypted in-memory address list
 * and the persisted list, which holds plaintext records or ciphertexts.
 * Writing the wallet file (`save`) is not part of this model: the persisted
 * fields below are what `save` would write.
 */
module Wallet {
  import opened Wrappers
  import opened Sealing
  import opened WalletLists

  /** The spend-protection setting; `None` stands for JSON null. */
  datatype Spend = Spend(kind: Option<string>, value: Option<string>)

  /** The persisted spend setting: plain, or sealed once the wallet is encrypted. */
  datatype StoredSpend = PlainSpend(spend: Spend) | SealedSpend(sealed: Sealed<Spend>)

  /** What `json.load` reads from the wallet file (salt, version and coin are not modelled). */
  datatype WalletFile = WalletFile(encrypted: bool, entries: seq<Stored>, spend: StoredSpend)

  /** A key-pair as returned by the key generator `keys_gen(password, salt)`. */
  datatype KeyPair = KeyPair(address: string, publicKey: string, privateKey: string)

  /** The exceptions the wallet raises, one per distinct guard of the source. */
  datatype WalletError =
    | EmptyWallet       // "Can't encrypt empty wallet." / "Can't lock empty wallet."
    | LockedWallet      // "Can't encrypt locked down wallet."
    | AlreadyEncrypted  // re-encryption is refused
    | NotEncrypted      // lock before encrypt
    | WrongPassword     // "Password does not seem to match"
    | MustUnlock        // "Wallet must be unlocked"
    | NotInWallet       // set_address of an unknown address (raised as "Duplicate address")
    | DuplicateAddress  // import of an address already in the wallet
    | ImportFailed      // the key file could not be read

  /**
   * A file this program writes: a plaintext file holds plaintext records and a
   * plain spend setting, an encrypted one a sealed spend setting.
   */
  predicate WellFormed(f: WalletFile) {
    && (f.encrypted ==> f.spend.SealedSpend?)
    && (!f.encrypted ==> f.spend.PlainSpend? && forall i :: 0 <= i < |f.entries| ==> f.entries[i].Plain?)
  }

  /** The records of a plaintext persisted list (the `deepcopy` in `load`). */
  function PlainRecords(entries: seq<Stored>): (recs: seq<AddressRecord>)
    requires forall i :: 0 <= i < |entries| ==> entries[i].Plain?
    ensures Plains(recs) == entries
  {
    var recs := seq(|entries|, i requires 0 <= i < |entries| => entries[i].rec);
    assert Plains(recs) == entries;
    recs
  }

  /** The record `new_address` builds: generated keys, the label, and `int(time())` in seconds. */
  function NewRecord(keys: KeyPair, newLabel: string, nowMs: nat): (rec: AddressRecord)
    ensures rec.address == keys.address && rec.labelText == newLabel
    ensures rec.timestamp * 1000 <= nowMs < rec.timestamp * 1000 + 1000
  {
    AddressRecord(keys.address, keys.publicKey, keys.privateKey, newLabel, nowMs / 1000)
  }

  /** The persisted entry for a new record: sealed with the master password iff the wallet is encrypted. */
  function StoredFor(encrypted: bool, masterPassword: string, rec: AddressRecord): (e: Stored)
    ensures encrypted ==> e.Blob? && Open(masterPassword, e.blob) == Some(rec)
    ensures !encrypted ==> e == Plain(rec)
  {
    if encrypted then Blob(Seal(masterPassword, rec)) else Plain(rec)
  }

  /** Appending an entry that opens keeps the whole persisted list openable. */
  lemma OpenAllAppend(pw: string, stored: seq<Stored>, rec: AddressRecord)
    requires OpenAll(pw, stored).Some?
    ensures OpenAll(pw, stored + [Blob(Seal(pw, rec))]) == Some(OpenAll(pw, stored).value + [rec])
  {
    var extended := stored + [Blob(Seal(pw, rec))];
    assert forall i :: 0 <= i < |extended| ==> Opens(pw, extended[i]);
    assert OpenAll(pw, extended).value == OpenAll(pw, stored).value + [rec];
  }

  /** The first plaintext entry of `a` in a plaintext persisted list is at the first record of `a`. */
  lemma PlainsFirstIndex(recs: seq<AddressRecord>, a: string, j: int)
    requires HasAddress(recs, a)
    requires -1 <= j < |recs|
    requires j >= 0 ==> Plains(recs)[j].Plain? && Plains(recs)[j].rec.address == a
    requires j == -1 ==> forall x :: 0 <= x < |recs| ==> !(Plains(recs)[x].Plain? && Plains(recs)[x].rec.address == a)
    requires j >= 0 ==> forall x :: 0 <= x < j ==> !(Plains(recs)[x].Plain? && Plains(recs)[x].rec.address == a)
    ensures j == FirstIndex(recs, a)
  {
    var k := FirstIndex(recs, a);
    assert Plains(recs)[k] == Plain(recs[k]);
    if j >= 0 {
      assert Plains(recs)[j] == Plain(recs[j]);
    }
  }

  class MultiWallet {
    /** `_address`: the selected address; `Some("")` is the empty string set while loading. */
    var address: Option<string>
    /** `_addresses`: the decrypted records. */
    var addresses: seq<AddressRecord>
    /** `_data['addresses']`: the persisted records or ciphertexts. */
    var stored: seq<Stored>
    /** `_data['spend']`. */
    var spend: StoredSpend
    /** `_infos['spend']`: the spend setting as last decrypted or set. */
    var spendInfo: StoredSpend
    /** `_data['encrypted']`, kept equal to `_infos['encrypted']` by every method of the source. */
    var encrypted: bool
    /** `_locked`. */
    var locked: bool
    /** `_master_password`; the empty string when none is held. */
    var masterPassword: string
    /** `key`: the private key of the selected address, once one was selected. */
    var key: Option<string>
    /** `public_key` of the selected address. */
    var publicKey: string

    /**
     * The wallet's invariant: a locked wallet is an encrypted one and holds
     * neither a master password nor decrypted records; a plaintext wallet
     * holds no master password and persists exactly its records, in
     * the same order; an encrypted wallet persists a sealed spend setting, and
     * while unlocked every persisted ciphertext opens with the master password
     * it holds, to the same records as the in-memory list (which `set_address`
     * may have reordered).
     */
    ghost predicate Valid()
      reads this
    {
      && (locked ==> encrypted && masterPassword == "" && addresses == [])
      && (!encrypted ==> masterPassword == "" && stored == Plains(addresses) && spend.PlainSpend?)
      && (encrypted ==> spend.SealedSpend?)
      && (encrypted && !locked ==>
            && OpenAll(masterPassword, stored).Some?
            && multiset(OpenAll(masterPassword, stored).value) == multiset(addresses))
    }

    /** The fields `__init__` sets before it calls `load`. */
    constructor ()
      ensures Valid()
      ensures address == None && addresses == [] && stored == [] && !encrypted && !locked
      ensures masterPassword == "" && key == None && publicKey == ""
    {
      address := None;
      addresses := [];
      stored := [];
      spend := PlainSpend(Spend(None, None));
      spendInfo := PlainSpend(Spend(None, None));
      encrypted := false;
      locked := false;
      masterPassword := "";
      key := None;
      publicKey := "";
    }

    /**
     * The state set up by `load` once the file is read: a plaintext wallet is
     * copied to memory, an encrypted one is unlocked with `password` (`None`
     * opens nothing); the first record becomes the selected address. `load`
     * runs from `__init__`, on a wallet that holds no decrypted records yet.
     */
    method Load(file: WalletFile, password: Option<string>) returns (st: Outcome<WalletError>)
      requires WellFormed(file)
      requires addresses == []
      modifies this
      ensures st.Pass? ==> Valid()
      ensures stored == file.entries && spend == file.spend && encrypted == file.encrypted
      ensures st.Pass? <==> !file.encrypted || (password.Some? && OpenAll(password.value, file.entries).Some?
                                                && Open(password.value, file.spend.sealed).Some?)
      ensures !file.encrypted ==> addresses == PlainRecords(file.entries) && !locked && masterPassword == ""
      ensures file.encrypted && st.Pass? ==>
        Some(addresses) == OpenAll(password.value, file.entries) && !locked && masterPassword == password.value
      ensures st.Pass? ==> address == if addresses == [] then None else Some(addresses[0].address)
      ensures !file.encrypted ==> spendInfo == file.spend
      ensures file.encrypted && st.Pass? ==> spendInfo == PlainSpend(Open(password.value, file.spend.sealed).value)
      ensures key == old(key) && publicKey == old(publicKey)
    {
      address := Some("");
      encrypted := file.encrypted;
      spendInfo := file.spend;
      spend := file.spend;
      stored := file.entries;
      locked := file.encrypted;
      masterPassword := "";
      if !locked {
        addresses := PlainRecords(file.entries);
      } else {
        if password.None? {
          return Fail(WrongPassword);
        }
        st := Unlock(password.value);
        if st.Fail? {
          return;
        }
      }
      address := if addresses == [] then None else Some(addresses[0].address);
      st := Pass;
    }

    /**
     * `password_ok`: the given password is the master password held in
     * memory. A locked wallet holds none, so there only "" passes.
     */
    predicate PasswordOk(password: string): (ok: bool)
      reads this
      ensures Valid() && locked ==> (ok <==> password == "")
      ensures Valid() && encrypted && !locked && ok ==> OpenAll(password, stored).Some?
    {
      password == masterPassword
    }

    /**
     * `encrypt`: seals every record, in order, and the spend setting under
     * `password`; refused for an empty, locked or already encrypted wallet.
     */
    method Encrypt(password: string) returns (st: Outcome<WalletError>)
      requires Valid()
      modifies this
      ensures Valid()
      ensures st == if |old(addresses)| == 0 then Fail(EmptyWallet)
                   else if old(locked) then Fail(LockedWallet)
                   else if old(encrypted) then Fail(AlreadyEncrypted)
                   else Pass
      ensures st.Fail? ==> unchanged(this)
      ensures st.Pass? ==> && stored == SealAll(password, addresses)
                           && OpenAll(password, stored) == Some(addresses)
                           && spend == SealedSpend(Seal(password, old(spend).spend))
                           && encrypted && !locked && masterPassword == password
      ensures addresses == old(addresses) && address == old(address) && spendInfo == old(spendInfo)
      ensures key == old(key) && publicKey == old(publicKey)
    {
      if |addresses| <= 0 {
        return Fail(EmptyWallet);
      }
      if locked {
        return Fail(LockedWallet);
      }
      if encrypted {
        return Fail(AlreadyEncrypted);
      }
      var sealed := SealRecords(password, addresses);
      OpenSealAll(password, password, addresses);
      stored := sealed;
      encrypted := true;
      spend := SealedSpend(Seal(password, spend.spend));
      masterPassword := password;
      locked := false;
      st := Pass;
    }

    /**
     * `lock`: forgets the master password, the decrypted records and the
     * selected address; refused for a never-encrypted or empty wallet.
     */
    method Lock() returns (st: Outcome<WalletError>)
      requires Valid()
      modifies this
      ensures Valid()
      ensures st == if !old(encrypted) then Fail(NotEncrypted)
                   else if |old(addresses)| == 0 then Fail(EmptyWallet)
                   else Pass
      ensures st.Fail? ==> unchanged(this)
      ensures st.Pass? ==> masterPassword == "" && locked && addresses == [] && address == None
      ensures stored == old(stored) && spend == old(spend) && encrypted == old(encrypted)
      ensures spendInfo == old(spendInfo) && key == old(key) && publicKey == old(publicKey)
    {
      if !encrypted {
        return Fail(NotEncrypted);
      }
      if |addresses| <= 0 {
        return Fail(EmptyWallet);
      }
      masterPassword := "";
      locked := encrypted;
      if locked {
        addresses := [];
        address := None;
      }
      st := Pass;
    }

    /**
     * `unlock`: a no-op unless the wallet is locked and encrypted. The records
     * are decrypted into a local list first, so a password that fails on any
     * of them changes nothing; the spend setting is decrypted after the wallet
     * is already unlocked, so a failure there leaves it unlocked.
     */
    method Unlock(password: string) returns (st: Outcome<WalletError>)
      requires Valid()
      modifies this
      ensures Valid()
      ensures !old(locked) || !old(encrypted) ==> st.Pass? && unchanged(this)
      ensures old(locked) && old(encrypted) && OpenAll(password, stored).None? ==>
        st == Fail(WrongPassword) && unchanged(this)
      ensures old(locked) && old(encrypted) && OpenAll(password, stored).Some? ==>
        && Some(addresses) == OpenAll(password, stored)
        && masterPassword == password && !locked
        && spend.SealedSpend?
        && st == (if Open(password, spend.sealed).Some? then Pass else Fail(WrongPassword))
        && spendInfo == (if st.Pass? then PlainSpend(Open(password, spend.sealed).value) else old(spendInfo))
      ensures stored == old(stored) && spend == old(spend) && encrypted == old(encrypted)
      ensures address == old(address) && key == old(key) && publicKey == old(publicKey)
    {
      if !locked {
        return Pass;
      }
      if !encrypted {
        return Pass;
      }
      var decrypted := OpenRecords(password, stored);
      if decrypted.None? {
        return Fail(WrongPassword);
      }
      addresses := decrypted.value;
      masterPassword := password;
      locked := false;
      match Open(password, spend.sealed)
      case None =>
        st := Fail(WrongPassword);
      case Some(s) =>
        spendInfo := PlainSpend(s);
        st := Pass;
    }

    /**
     * `new_address`: appends one record built from the generated keys to both
     * lists, sealed in the persisted list iff the wallet is encrypted.
     */
    method NewAddress(newLabel: string, keys: KeyPair, nowMs: nat) returns (st: Outcome<WalletError>)
      requires Valid()
      modifies this
      ensures Valid()
      ensures st == if old(encrypted) && old(locked) then Fail(MustUnlock) else Pass
      ensures st.Fail? ==> unchanged(this)
      ensures st.Pass? ==> && addresses == old(addresses) + [NewRecord(keys, newLabel, nowMs)]
                           && stored == old(stored) + [StoredFor(encrypted, masterPassword, NewRecord(keys, newLabel, nowMs))]
      ensures encrypted == old(encrypted) && locked == old(locked) && masterPassword == old(masterPassword)
      ensures address == old(address) && spend == old(spend) && spendInfo == old(spendInfo)
      ensures key == old(key) && publicKey == old(publicKey)
    {
      if encrypted && locked {
        return Fail(MustUnlock);
      }
      var rec := NewRecord(keys, newLabel, nowMs);
      if encrypted {
        OpenAllAppend(masterPassword, stored, rec);
      }
      addresses := addresses + [rec];
      stored := stored + [StoredFor(encrypted, masterPassword, rec)];
      st := Pass;
    }

    /**
     * `set_label`: changes the label of every record of `target`, in memory
     * and in the persisted list, and nothing else. For an encrypted wallet it
     * re-seals the ciphertexts that open to a record of `target` (the source
     * writes by the in-memory index instead; see SetLabelAsWritten).
     */
    method SetLabel(target: string, newLabel: string) returns (st: Outcome<WalletError>)
      requires Valid()
      modifies this
      ensures Valid()
      ensures st == if old(encrypted) && old(locked) then Fail(MustUnlock) else Pass
      ensures st.Fail? ==> unchanged(this)
      ensures st.Pass? ==> addresses == Relabel(old(addresses), target, newLabel)
      ensures st.Pass? ==> stored == if encrypted then ResealLabel(masterPassword, old(stored), target, newLabel)
                                     else Plains(addresses)
      ensures encrypted == old(encrypted) && locked == old(locked) && masterPassword == old(masterPassword)
      ensures address == old(address) && spend == old(spend) && spendInfo == old(spendInfo)
      ensures key == old(key) && publicKey == old(publicKey)
    {
      if encrypted && locked {
        return Fail(MustUnlock);
      }
      var recs, persisted := addresses, stored;
      var i := 0;
      while i < |recs|
        invariant 0 <= i <= |recs| == |addresses|
        invariant forall j :: 0 <= j < |recs| ==>
          recs[j] == if j < i then Relabelled(addresses[j], target, newLabel) else addresses[j]
        invariant !encrypted ==> |persisted| == |recs| && forall j :: 0 <= j < |recs| ==> persisted[j] == Plain(recs[j])
        invariant encrypted ==> persisted == stored
      {
        if recs[i].address == target {
          recs := recs[i := recs[i].(labelText := newLabel)];
          if !encrypted {
            persisted := persisted[i := Plain(recs[i])];
          }
        }
        i := i + 1;
      }
      assert recs == Relabel(addresses, target, newLabel);
      if encrypted {
        OpenResealLabel(masterPassword, persisted, target, newLabel);
        RelabelMultiset(OpenAll(masterPassword, persisted).value, addresses, target, newLabel);
        persisted := ResealLabel(masterPassword, persisted, target, newLabel);
      } else {
        assert persisted == Plains(recs);
      }
      addresses, stored := recs, persisted;
      st := Pass;
    }

    /**
     * `set_spend`: stores a new spend setting (the text "None" standing for
     * no type), sealed iff the wallet is encrypted, when `password` is the
     * master password. Refused on a locked wallet (the source only compares
     * passwords; see SetSpendAsWritten).
     */
    method SetSpend(spendType: string, spendValue: string, password: string) returns (st: Outcome<WalletError>)
      requires Valid()
      modifies this
      ensures Valid()
      ensures st == if old(encrypted) && old(locked) then Fail(MustUnlock)
                   else if !PasswordOk(password) then Fail(WrongPassword)
                   else Pass
      ensures st.Fail? ==> unchanged(this)
      ensures st.Pass? ==>
        var s := Spend(if spendType == "None" then None else Some(spendType), Some(spendValue));
        && spendInfo == PlainSpend(s)
        && spend == if encrypted then SealedSpend(Seal(masterPassword, s)) else PlainSpend(s)
      ensures encrypted == old(encrypted) && locked == old(locked) && masterPassword == old(masterPassword)
      ensures addresses == old(addresses) && stored == old(stored) && address == old(address)
      ensures key == old(key) && publicKey == old(publicKey)
    {
      if encrypted && locked {
        return Fail(MustUnlock);
      }
      if !PasswordOk(password) {
        return Fail(WrongPassword);
      }
      var kind := if spendType == "None" then None else Some(spendType);
      var s := Spend(kind, Some(spendValue));
      if encrypted {
        spend := SealedSpend(Seal(masterPassword, s));
      } else {
        spend := PlainSpend(s);
      }
      spendInfo := PlainSpend(s);
      st := Pass;
    }

    /** `is_address_in_wallet`: whether some decrypted record has `target`. */
    method IsAddressInWallet(target: string) returns (r: Result<bool, WalletError>)
      ensures r == if encrypted && locked then Failure(MustUnlock) else Success(HasAddress(addresses, target))
    {
      if encrypted && locked {
        return Failure(MustUnlock);
      }
      var k := IndexOfAddress(addresses, target);
      r := Success(k >= 0);
    }

    /** `get_key`: the first decrypted record of `target`, or `None`. */
    method GetKey(target: string) returns (r: Result<Option<AddressRecord>, WalletError>)
      ensures encrypted && locked <==> r == Failure(MustUnlock)
      ensures r == Success(None) <==> !(encrypted && locked) && !HasAddress(addresses, target)
      ensures r.Success? && r.value.Some? ==>
        exists k :: 0 <= k < |addresses| && addresses[k] == r.value.value && addresses[k].address == target
                    && forall j :: 0 <= j < k ==> addresses[j].address != target
    {
      if encrypted && locked {
        return Failure(MustUnlock);
      }
      var k := IndexOfAddress(addresses, target);
      r := Success(if k >= 0 then Some(addresses[k]) else None);
    }

    /**
     * `set_address`: selects `target` and moves its first record to the
     * front of the in-memory list; the persisted list is reordered the same
     * way only when the wallet is not encrypted.
     */
    method SetAddress(target: string) returns (st: Outcome<WalletError>)
      requires Valid()
      modifies this
      ensures Valid()
      ensures st == if old(encrypted) && old(locked) then Fail(MustUnlock)
                   else if !HasAddress(old(addresses), target) then Fail(NotInWallet)
                   else Pass
      ensures st.Fail? ==> unchanged(this)
      ensures st.Pass? ==>
        var k := FirstIndex(old(addresses), target);
        && addresses == MoveToFront(old(addresses), k)
        && (encrypted ==> stored == old(stored))
        && (!encrypted ==> k < |old(stored)| && stored == MoveToFront(old(stored), k))
        && key == Some(old(addresses)[k].privateKey) && publicKey == old(addresses)[k].publicKey
      ensures st.Pass? ==> address == Some(target) && addresses[0].address == target
      ensures encrypted == old(encrypted) && locked == old(locked) && masterPassword == old(masterPassword)
      ensures spend == old(spend) && spendInfo == old(spendInfo)
    {
      if encrypted && locked {
        return Fail(MustUnlock);
      }
      var recs, persisted := addresses, stored;
      var k := IndexOfAddress(recs, target);
      if k < 0 {
        return Fail(NotInWallet);
      }
      var rec := recs[k];
      if encrypted {
        MoveToFrontPermutes(recs, k);
      } else {
        var j := IndexOfStored(persisted, target);
        PlainsFirstIndex(recs, target, j);
        MoveToFrontPlains(recs, k);
        persisted := MoveToFront(persisted, j);
      }
      key, publicKey, address := Some(rec.privateKey), rec.publicKey, Some(target);
      addresses, stored := MoveToFront(recs, k), persisted;
      st := Pass;
    }

    /**
     * `import_der`: appends the record read from a key file (`None` when it
     * could not be read), with the given label, to both lists; refused for an
     * address already in the wallet.
     */
    method ImportDer(der: Option<AddressRecord>, newLabel: string) returns (st: Outcome<WalletError>)
      requires Valid()
      modifies this
      ensures Valid()
      ensures st == if old(encrypted) && old(locked) then Fail(MustUnlock)
                   else if der.None? then Fail(ImportFailed)
                   else if HasAddress(old(addresses), der.value.address) then Fail(DuplicateAddress)
                   else Pass
      ensures st.Fail? ==> unchanged(this)
      ensures st.Pass? ==>
        && addresses == old(addresses) + [der.value.(labelText := newLabel)]
        && stored == old(stored) + [StoredFor(encrypted, masterPassword, der.value.(labelText := newLabel))]
      ensures encrypted == old(encrypted) && locked == old(locked) && masterPassword == old(masterPassword)
      ensures address == old(address) && spend == old(spend) && spendInfo == old(spendInfo)
      ensures key == old(key) && publicKey == old(publicKey)
    {
      if encrypted && locked {
        return Fail(MustUnlock);
      }
      if der.None? {
        return Fail(ImportFailed);
      }
      var rec := der.value.(labelText := newLabel);
      var present := IsAddressInWallet(rec.address);
      if present.value {
        return Fail(DuplicateAddress);
      }
      if encrypted {
        OpenAllAppend(masterPassword, stored, rec);
      }
      addresses := addresses + [rec];
      stored := stored + [StoredFor(encrypted, masterPassword, rec)];
      st := Pass;
    }
  }

  /**
   * Encrypting a wallet, locking it and unlocking it with the same password
   * gives back the same records in the same order.
   */
  method EncryptLockUnlock(w: MultiWallet, password: string)
    requires w.Valid() && !w.encrypted && !w.locked && |w.addresses| > 0
    modifies w
    ensures w.Valid() && !w.locked && w.encrypted
    ensures w.addresses == old(w.addresses) && w.masterPassword == password
  {
    var recs := w.addresses;
    var st := w.Encrypt(password);
    st := w.Lock();
    assert w.locked && w.addresses == [];
    st := w.Unlock(password);
    OpenSealAll(password, password, recs);
  }

  /**
   * The first index from `i` on of a record of `target` whose persisted entry
   * is a ciphertext: where the plaintext branch of `set_label` raises.
   */
  function FirstSealedOf(addresses: seq<AddressRecord>, stored: seq<Stored>, target: string, i: nat): (j: nat)
    requires |stored| == |addresses| && i <= |addresses|
    ensures i <= j <= |addresses|
    ensures j < |addresses| ==> addresses[j].address == target && stored[j].Blob?
    ensures forall k :: i <= k < j ==> !(addresses[k].address == target && stored[k].Blob?)
    decreases |addresses| - i
  {
    if i == |addresses| then i
    else if addresses[i].address == target && stored[i].Blob? then i
    else FirstSealedOf(addresses, stored, target, i + 1)
  }

  /** Both lists after `set_label` as written; `persisted` is `None` when it raised. */
  datatype LabelAsWritten = LabelAsWritten(memory: seq<AddressRecord>, persisted: Option<seq<Stored>>)

  /**
   * `set_label` as written: for each index `i` of a record of `target` in the
   * in-memory list, the in-memory record is relabelled first; then an
   * encrypted wallet with a non-empty master password gets the relabelled
   * record sealed into persisted entry `i`, and otherwise persisted entry `i`
   * is relabelled in place, which raises when it is a ciphertext. The
   * in-memory records up to the one that raised keep their new label.
   */
  function SetLabelAsWritten(addresses: seq<AddressRecord>, stored: seq<Stored>, encrypted: bool,
                             masterPassword: string, target: string, newLabel: string): (r: LabelAsWritten)
    requires |stored| == |addresses|
    ensures |r.memory| == |addresses|
    ensures r.persisted.None? <==> exists i :: 0 <= i < |addresses| && addresses[i].address == target
                                               && !(encrypted && masterPassword != "") && stored[i].Blob?
    ensures r.persisted.Some? ==> |r.persisted.value| == |stored| && r.memory == Relabel(addresses, target, newLabel)
    ensures r.persisted.None? ==> exists j :: 0 <= j < |addresses| && addresses[j].address == target
                                             && r.memory[j] == addresses[j].(labelText := newLabel)
                                             && r.memory[j + 1..] == addresses[j + 1..]
  {
    var resealed := encrypted && masterPassword != "";
    var j := if resealed then |addresses| else FirstSealedOf(addresses, stored, target, 0);
    if j < |addresses| then
      var memory := Relabel(addresses[..j + 1], target, newLabel) + addresses[j + 1..];
      assert memory[j] == Relabel(addresses[..j + 1], target, newLabel)[j];
      LabelAsWritten(memory, None)
    else
      LabelAsWritten(Relabel(addresses, target, newLabel), Some(seq(|stored|, i requires 0 <= i < |stored| =>
        if addresses[i].address != target then stored[i]
        else if resealed then Blob(Seal(masterPassword, addresses[i].(labelText := newLabel)))
        else Plain(stored[i].rec.(labelText := newLabel)))))
  }

  /**
   * Selecting B in an encrypted wallet persisted as [A, B] reorders only the
   * in-memory list to [B, A]; relabelling A then overwrites B's ciphertext,
   * and B is lost from the persisted wallet.
   */
  lemma SetLabelAsWrittenLosesRecord(a: AddressRecord, b: AddressRecord, pw: string, newLabel: string)
    requires a.address != b.address && pw != ""
    ensures var r := SetLabelAsWritten([b, a], SealAll(pw, [a, b]), true, pw, a.address, newLabel).persisted;
      && r.Some? && OpenAll(pw, r.value).Some?
      && !HasAddress(OpenAll(pw, r.value).value, b.address)
      && HasAddress(OpenAll(pw, SealAll(pw, [a, b])).value, b.address)
  {
    var stored := SealAll(pw, [a, b]);
    var r := SetLabelAsWritten([b, a], stored, true, pw, a.address, newLabel).persisted;
    assert r.value[1] == Blob(Seal(pw, a.(labelText := newLabel)));
    assert r.value[0] == stored[0];
    var recs := OpenAll(pw, r.value).value;
    assert recs[0] == a && recs[1] == a.(labelText := newLabel);
    OpenSealAll(pw, pw, [a, b]);
    assert OpenAll(pw, stored).value[1] == b;
  }

  /**
   * An encrypted wallet whose master password is the empty string takes the
   * plaintext branch and raises on its ciphertext, after the in-memory label
   * was already changed. This rests on `Seal` accepting the empty password,
   * as the model's cipher does.
   */
  lemma SetLabelAsWrittenEmptyPasswordRaises(a: AddressRecord, newLabel: string)
    ensures var r := SetLabelAsWritten([a], SealAll("", [a]), true, "", a.address, newLabel);
      r.persisted.None? && r.memory == [a.(labelText := newLabel)]
  {
    assert SealAll("", [a])[0].Blob?;
  }

  /**
   * `set_spend` as written: only the password is checked. On a locked wallet
   * the master password held is "", so the empty password passes and the
   * spend setting is sealed under "".
   */
  function SetSpendAsWritten(encrypted: bool, masterPassword: string, password: string, s: Spend): (r: Option<StoredSpend>)
    ensures r.Some? <==> password == masterPassword
    ensures r.Some? && encrypted ==> r.value.SealedSpend? && r.value.sealed.key == masterPassword
  {
    if password != masterPassword then None
    else if encrypted then Some(SealedSpend(Seal(masterPassword, s)))
    else Some(PlainSpend(s))
  }

  /**
   * After a locked wallet accepts `set_spend` with the empty password, the
   * wallet password no longer opens the spend setting, so every later
   * `unlock` with the right password raises after unlocking. This rests on
   * `Seal` accepting the empty password, as the model's cipher does.
   */
  lemma SetSpendAsWrittenBreaksUnlock(secret: string, s: Spend)
    requires secret != ""
    ensures var r := SetSpendAsWritten(true, "", "", s);
      r.Some? && Open(secret, r.value.sealed).None?
  {
  }
}
