/** The controller's two quorums: N-of-M admins, and threshold attestations by bridge keys. */
module Quorum {
  import opened Host
  import opened Lists

  datatype AdminSet = AdminSet(admins: seq<Address>, threshold: nat)

  // ---------------------------------------------------------------- admins

  /** The loop of `require_admin_multisig` over the first `n` approvals. */
  function ApprovedUpTo(admins: seq<Address>, approvals: seq<Address>, signed: set<Address>, n: nat): Result<bool>
    requires n <= |approvals|
  {
    if n == 0 then Ok(true)
    else
      var before :- ApprovedUpTo(admins, approvals, signed, n - 1);
      var a := approvals[n - 1];
      if a !in admins then Revert(NotAnAdmin)
      else if a in approvals[..n - 1] then Revert(DuplicateApproval)
      else if a !in signed then Revert(NotAuthorized)
      else Ok(true)
  }

  /** `signed` are the addresses whose `require_auth` passes in this invocation. */
  function Approved(office: AdminSet, approvals: seq<Address>, signed: set<Address>): Result<bool> {
    if |approvals| < office.threshold then Revert(NotEnoughApprovals)
    else ApprovedUpTo(office.admins, approvals, signed, |approvals|)
  }

  ghost predicate GoodPrefix(admins: seq<Address>, approvals: seq<Address>, signed: set<Address>, n: nat)
    requires n <= |approvals|
  {
    forall i :: 0 <= i < n ==> approvals[i] in admins && approvals[i] in signed && approvals[i] !in approvals[..i]
  }

  lemma {:induction false} ApprovedUpToExact(admins: seq<Address>, approvals: seq<Address>, signed: set<Address>,
                                             n: nat)
    requires n <= |approvals|
    ensures ApprovedUpTo(admins, approvals, signed, n).Ok? <==> GoodPrefix(admins, approvals, signed, n)
    decreases n
  {
    if n > 0 {
      ApprovedUpToExact(admins, approvals, signed, n - 1);
      if GoodPrefix(admins, approvals, signed, n) {
        assert GoodPrefix(admins, approvals, signed, n - 1);
        assert approvals[n - 1] in admins;
      } else if GoodPrefix(admins, approvals, signed, n - 1) {
        assert !(approvals[n - 1] in admins && approvals[n - 1] in signed && approvals[n - 1] !in approvals[..n - 1]);
      }
    }
  }

  /** The check passes exactly for lists of enough distinct current admins who all signed. */
  lemma MultisigExact(office: AdminSet, approvals: seq<Address>, signed: set<Address>)
    ensures Approved(office, approvals, signed).Ok?
            <==> |approvals| >= office.threshold && Distinct(approvals)
                 && (forall i :: 0 <= i < |approvals| ==> approvals[i] in office.admins && approvals[i] in signed)
  {
    ApprovedUpToExact(office.admins, approvals, signed, |approvals|);
    FirstOccurrencesAreDistinct(approvals);
  }

  /**
   * A check that fails names what is wrong with the first bad approval: not an
   * admin, listed before, or not signed, in this order.
   */
  lemma ApprovalFailsAtTheFirst(office: AdminSet, approvals: seq<Address>, signed: set<Address>, i: nat)
    requires |approvals| >= office.threshold && i < |approvals|
    requires GoodPrefix(office.admins, approvals, signed, i) && !GoodPrefix(office.admins, approvals, signed, i + 1)
    ensures Approved(office, approvals, signed)
            == Revert(if approvals[i] !in office.admins then NotAnAdmin
                      else if approvals[i] in approvals[..i] then DuplicateApproval
                      else NotAuthorized)
  {
    ApprovedUpToExact(office.admins, approvals, signed, i);
    ApprovedUpToExact(office.admins, approvals, signed, i + 1);
    ApprovalFailsEarly(office.admins, approvals, signed, i + 1);
  }

  ghost predicate HasQuorum(office: AdminSet, signed: set<Address>) {
    exists q: set<Address> :: |q| >= office.threshold && q <= signed && q <= Elements(office.admins)
  }

  /** A passing check exhibits at least `threshold` distinct current admins who signed. */
  lemma MultisigExhibitsQuorum(office: AdminSet, approvals: seq<Address>, signed: set<Address>)
    requires Approved(office, approvals, signed).Ok?
    ensures HasQuorum(office, signed)
  {
    MultisigExact(office, approvals, signed);
    DistinctCount(approvals);
    assert Elements(approvals) <= signed && Elements(approvals) <= Elements(office.admins);
  }

  datatype AdminCall =
    | AddAdmin(approvals: seq<Address>, admin: Address)
    | RemoveAdmin(approvals: seq<Address>, admin: Address)
    | SetThreshold(approvals: seq<Address>, threshold: nat)

  function Without(s: seq<Address>, a: Address): (r: seq<Address>)
    ensures forall x :: x in r <==> x in s && x != a
  {
    if s == [] then []
    else
      var front, last := Without(s[..|s| - 1], a), s[|s| - 1];
      if last == a then front else front + [last]
  }

  function Changed(office: AdminSet, c: AdminCall, signed: set<Address>): Result<AdminSet> {
    var approved :- Approved(office, c.approvals, signed);
    match c
    case AddAdmin(_, admin) =>
      if admin in office.admins then Revert(AdminExists) else Ok(office.(admins := office.admins + [admin]))
    case RemoveAdmin(_, admin) =>
      if |office.admins| <= office.threshold then Revert(BelowThreshold)
      else if admin !in office.admins then Revert(AdminNotFound)
      else Ok(office.(admins := Without(office.admins, admin)))
    case SetThreshold(_, threshold) =>
      if threshold < 1 || threshold > |office.admins| then Revert(InvalidThreshold)
      else Ok(office.(threshold := threshold))
  }

  predicate AdminsOk(office: AdminSet) {
    Distinct(office.admins) && 1 <= office.threshold <= |office.admins|
  }

  lemma {:induction false} WithoutKeepsRest(s: seq<Address>, a: Address)
    requires Distinct(s)
    ensures Distinct(Without(s, a)) && |Without(s, a)| == |s| - if a in s then 1 else 0
    decreases s
  {
    if s != [] {
      var n := |s| - 1;
      WithoutKeepsRest(s[..n], a);
      assert s == s[..n] + [s[n]];
      assert s[n] !in s[..n];
    }
  }

  /**
   * Every change that goes through was signed by a quorum of the admins in
   * office, and leaves distinct admins and a threshold between one and their
   * number.
   */
  lemma ChangeNeedsQuorum(office: AdminSet, c: AdminCall, signed: set<Address>)
    requires AdminsOk(office) && Changed(office, c, signed).Ok?
    ensures HasQuorum(office, signed) && AdminsOk(Changed(office, c, signed).value)
  {
    MultisigExhibitsQuorum(office, c.approvals, signed);
    if c.RemoveAdmin? {
      WithoutKeepsRest(office.admins, c.admin);
    }
  }

  /** Dropping `a` closes the gap it leaves and keeps the order of the rest. */
  lemma {:induction false} WithoutClosesTheGap(s: seq<Address>, a: Address, i: nat)
    requires Distinct(s) && i < |s| && s[i] == a
    ensures Without(s, a) == s[..i] + s[i + 1..]
    decreases s
  {
    var n := |s| - 1;
    if i == n {
      assert a !in s[..n];
      WithoutOthers(s[..n], a);
    } else {
      WithoutClosesTheGap(s[..n], a, i);
      assert s[n] != a;
    }
  }

  lemma {:induction false} WithoutOthers(s: seq<Address>, a: Address)
    requires a !in s
    ensures Without(s, a) == s
    decreases s
  {
    if s != [] {
      WithoutOthers(s[..|s| - 1], a);
    }
  }

  /** The admins of `office` and one more, at the end. */
  ghost predicate Joined(office: AdminSet, after: AdminSet, admin: Address) {
    && after.threshold == office.threshold && |after.admins| == |office.admins| + 1
    && (forall i :: 0 <= i < |office.admins| ==> after.admins[i] == office.admins[i])
    && after.admins[|office.admins|] == admin
  }

  /** The admins of `office` in their order, but for `admin`. */
  ghost predicate Departed(office: AdminSet, after: AdminSet, admin: Address) {
    && after.threshold == office.threshold
    && (forall x :: x in after.admins <==> x in office.admins && x != admin)
    && exists i :: 0 <= i < |office.admins| && office.admins[i] == admin
                   && after.admins == office.admins[..i] + office.admins[i + 1..]
  }

  /**
   * What a change that goes through does: the named admin, and nobody else, comes
   * or goes; or the threshold becomes the given one. Nothing else changes.
   */
  lemma ChangeEffects(office: AdminSet, c: AdminCall, signed: set<Address>)
    requires AdminsOk(office) && Changed(office, c, signed).Ok?
    ensures var after := Changed(office, c, signed).value;
            match c
            case AddAdmin(_, admin) => Joined(office, after, admin)
                                       && forall x :: x in after.admins <==> x in office.admins || x == admin
            case RemoveAdmin(_, admin) => Departed(office, after, admin)
            case SetThreshold(_, threshold) => after.threshold == threshold && after.admins == office.admins
  {
    match c {
      case AddAdmin(_, admin) =>
      case RemoveAdmin(_, admin) =>
        var i :| 0 <= i < |office.admins| && office.admins[i] == admin;
        WithoutClosesTheGap(office.admins, admin, i);
      case SetThreshold(_, _) =>
    }
  }

  /** What a change needs besides the quorum. */
  predicate Admissible(office: AdminSet, c: AdminCall) {
    match c
    case AddAdmin(_, admin) => admin !in office.admins
    case RemoveAdmin(_, admin) => admin in office.admins && |office.admins| > office.threshold
    case SetThreshold(_, threshold) => 1 <= threshold <= |office.admins|
  }

  /** A change goes through exactly with a passing quorum, and names why it does not. */
  lemma ChangeGoesThroughIff(office: AdminSet, c: AdminCall, signed: set<Address>)
    ensures var r, approved := Changed(office, c, signed), Approved(office, c.approvals, signed);
            && (r.Ok? <==> approved.Ok? && Admissible(office, c))
            && (approved.Revert? ==> r == Revert(approved.why))
            && (approved.Ok? && r.Revert? ==>
                  r.why == match c
                           case AddAdmin(_, _) => AdminExists
                           case RemoveAdmin(_, _) =>
                             if |office.admins| <= office.threshold then BelowThreshold else AdminNotFound
                           case SetThreshold(_, _) => InvalidThreshold)
  {
    hide Approved;
  }

  /** Calls with the signatures that came with them; one that panics changes nothing. */
  function Governed(office: AdminSet, cs: seq<(AdminCall, set<Address>)>): AdminSet
    decreases cs
  {
    if cs == [] then office
    else
      var r := Changed(office, cs[0].0, cs[0].1);
      Governed(if r.Ok? then r.value else office, cs[1..])
  }

  lemma {:induction false} GovernanceNeverLocksOut(office: AdminSet, cs: seq<(AdminCall, set<Address>)>,
                                                   signed: set<Address>)
    requires AdminsOk(office)
    ensures AdminsOk(Governed(office, cs))
    ensures Elements(Governed(office, cs).admins) <= signed
            ==> Approved(Governed(office, cs), Governed(office, cs).admins, signed).Ok?
    decreases cs
  {
    if cs == [] {
      MultisigExact(office, office.admins, signed);
      if Elements(office.admins) <= signed {
        forall i | 0 <= i < |office.admins| ensures office.admins[i] in signed {
          assert office.admins[i] in Elements(office.admins);
        }
      }
    } else {
      var r := Changed(office, cs[0].0, cs[0].1);
      if r.Ok? {
        ChangeNeedsQuorum(office, cs[0].0, cs[0].1);
      }
      GovernanceNeverLocksOut(if r.Ok? then r.value else office, cs[1..], signed);
    }
  }

  // ---------------------------------------------------------------- bridge keys

  type Key = nat
  type Signature = nat

  /** The loop of `require_bridge` over the first `n` attestations: answers the last index seen. */
  function AttestedUpTo(keys: seq<Key>, atts: seq<(nat, Signature)>, valid: set<(Key, Signature)>, n: nat): Result<int>
    requires n <= |atts|
  {
    if n == 0 then Ok(-1)
    else
      var last :- AttestedUpTo(keys, atts, valid, n - 1);
      var (index, sig) := atts[n - 1];
      if index <= last then Revert(UnsortedAttestations)
      else if index >= |keys| then Revert(InvalidKeyIndex)
      else if (keys[index], sig) !in valid then Revert(BadSignature)
      else Ok(index)
  }

  /** `valid` are the key and signature pairs that verify over this call's payload. */
  function Attested(keys: seq<Key>, threshold: nat, atts: seq<(nat, Signature)>,
                    valid: set<(Key, Signature)>): Result<bool>
  {
    if |atts| < threshold then Revert(NotEnoughApprovals)
    else
      var last :- AttestedUpTo(keys, atts, valid, |atts|);
      Ok(true)
  }

  ghost predicate Increasing(keys: seq<Key>, atts: seq<(nat, Signature)>, valid: set<(Key, Signature)>, n: nat)
    requires n <= |atts|
  {
    && (forall i :: 0 <= i < n ==> atts[i].0 < |keys| && (keys[atts[i].0], atts[i].1) in valid)
    && (forall i, j :: 0 <= i < j < n ==> atts[i].0 < atts[j].0)
  }

  lemma {:induction false} AttestedIsIncreasing(keys: seq<Key>, atts: seq<(nat, Signature)>,
                                                valid: set<(Key, Signature)>, n: nat)
    requires n <= |atts| && AttestedUpTo(keys, atts, valid, n).Ok?
    ensures Increasing(keys, atts, valid, n)
    ensures AttestedUpTo(keys, atts, valid, n).value == if n == 0 then -1 else atts[n - 1].0
    decreases n
  {
    if n > 0 {
      AttestedIsIncreasing(keys, atts, valid, n - 1);
    }
  }

  lemma {:induction false} IncreasingIsAttested(keys: seq<Key>, atts: seq<(nat, Signature)>,
                                                valid: set<(Key, Signature)>, n: nat)
    requires n <= |atts| && Increasing(keys, atts, valid, n)
    ensures AttestedUpTo(keys, atts, valid, n) == Ok(if n == 0 then -1 else atts[n - 1].0)
    decreases n
  {
    if n > 0 {
      IncreasingIsAttested(keys, atts, valid, n - 1);
    }
  }

  /** The check passes exactly for enough attestations with rising key indexes whose signatures verify. */
  lemma AttestedExact(keys: seq<Key>, threshold: nat, atts: seq<(nat, Signature)>, valid: set<(Key, Signature)>)
    ensures Attested(keys, threshold, atts, valid).Ok? <==> |atts| >= threshold && Increasing(keys, atts, valid, |atts|)
  {
    if AttestedUpTo(keys, atts, valid, |atts|).Ok? {
      AttestedIsIncreasing(keys, atts, valid, |atts|);
    }
    if Increasing(keys, atts, valid, |atts|) {
      IncreasingIsAttested(keys, atts, valid, |atts|);
    }
  }

  /** And one that fails names what is wrong with the first bad attestation. */
  lemma AttestationFailsAtTheFirst(keys: seq<Key>, threshold: nat, atts: seq<(nat, Signature)>,
                                   valid: set<(Key, Signature)>, i: nat)
    requires |atts| >= threshold && i < |atts|
    requires Increasing(keys, atts, valid, i) && !Increasing(keys, atts, valid, i + 1)
    ensures Attested(keys, threshold, atts, valid)
            == Revert(if i > 0 && atts[i].0 <= atts[i - 1].0 then UnsortedAttestations
                      else if atts[i].0 >= |keys| then InvalidKeyIndex
                      else BadSignature)
  {
    IncreasingIsAttested(keys, atts, valid, i);
    if AttestedUpTo(keys, atts, valid, i + 1).Ok? {
      AttestedIsIncreasing(keys, atts, valid, i + 1);
    }
    AttestationFailsEarly(keys, atts, valid, i + 1);
  }

  function Indexes(atts: seq<(nat, Signature)>): seq<nat> {
    seq(|atts|, i requires 0 <= i < |atts| => atts[i].0)
  }

  /** Distinct key indexes, each with a signature that verifies under the key at that index. */
  ghost predicate IsWitness(keys: seq<Key>, valid: set<(Key, Signature)>, q: set<nat>) {
    forall i :: i in q ==> i < |keys| && exists sig :: (keys[i], sig) in valid
  }

  /** A passing check exhibits at least `threshold` distinct key indexes, each with a valid signature. */
  lemma AttestationExhibitsQuorum(keys: seq<Key>, threshold: nat, atts: seq<(nat, Signature)>,
                                  valid: set<(Key, Signature)>)
    requires Attested(keys, threshold, atts, valid).Ok?
    ensures |Elements(Indexes(atts))| >= threshold && IsWitness(keys, valid, Elements(Indexes(atts)))
  {
    AttestedExact(keys, threshold, atts, valid);
    var ix := Indexes(atts);
    DistinctCount(ix);
    forall i | i in Elements(ix) ensures i < |keys| && exists sig :: (keys[i], sig) in valid {
      var k :| 0 <= k < |ix| && ix[k] == i;
      assert (keys[i], atts[k].1) in valid;
    }
  }

  function KeysAt(keys: seq<Key>, q: set<nat>): set<Key>
    requires forall i :: i in q ==> i < |keys|
  {
    set i | i in q :: keys[i]
  }

  lemma {:induction false} DistinctKeysAt(keys: seq<Key>, q: set<nat>)
    requires Distinct(keys) && forall i :: i in q ==> i < |keys|
    ensures |KeysAt(keys, q)| == |q|
    decreases q
  {
    if i :| i in q {
      DistinctKeysAt(keys, q - {i});
      assert KeysAt(keys, q) == KeysAt(keys, q - {i}) + {keys[i]};
      assert keys[i] !in KeysAt(keys, q - {i});
    }
  }

  /** When no key is listed twice, that is as many distinct keys. */
  lemma DistinctKeysAttest(keys: seq<Key>, threshold: nat, atts: seq<(nat, Signature)>, valid: set<(Key, Signature)>)
    requires Attested(keys, threshold, atts, valid).Ok? && Distinct(keys)
    ensures IsWitness(keys, valid, Elements(Indexes(atts)))
    ensures |KeysAt(keys, Elements(Indexes(atts)))| >= threshold
  {
    AttestationExhibitsQuorum(keys, threshold, atts, valid);
    DistinctKeysAt(keys, Elements(Indexes(atts)));
  }

  /** The keys under which a list of attestations is signed. */
  function SigningKeys(keys: seq<Key>, atts: seq<(nat, Signature)>): set<Key> {
    set i | 0 <= i < |atts| && atts[i].0 < |keys| :: keys[atts[i].0]
  }

  /** What the threshold is for: every passing check shows that many distinct keys. */
  ghost predicate ThresholdMeansKeys(keys: seq<Key>, threshold: nat) {
    forall atts, valid :: Attested(keys, threshold, atts, valid).Ok? ==> |SigningKeys(keys, atts)| >= threshold
  }

  ghost predicate Rising(s: seq<nat>, n: nat) {
    (forall k :: 0 <= k < |s| ==> s[k] < n) && (forall k, l :: 0 <= k < l < |s| ==> s[k] < s[l])
  }

  function FirstNumbers(n: nat): seq<nat> {
    seq(n, k => k)
  }

  /** A rising list of `t` numbers below `n` with `i` among them. */
  lemma {:induction false} RisingThroughOne(n: nat, t: nat, i: nat) returns (s: seq<nat>)
    requires i < n && 1 <= t <= n
    ensures Rising(s, n) && |s| == t && i in s
    decreases n
  {
    if i < n - 1 && t < n {
      s := RisingThroughOne(n - 1, t, i);
    } else if t == n {
      s := FirstNumbers(n);
      assert s[i] == i;
    } else {
      s := FirstNumbers(t - 1) + [i];
      assert s[t - 1] == i;
    }
  }

  lemma {:induction false} RisingThroughTwo(n: nat, t: nat, i: nat, j: nat) returns (s: seq<nat>)
    requires i < j < n && 2 <= t <= n
    ensures Rising(s, n) && |s| == t && i in s && j in s
    decreases n
  {
    if j < n - 1 && t < n {
      s := RisingThroughTwo(n - 1, t, i, j);
    } else if t == n {
      s := FirstNumbers(n);
      assert s[i] == i && s[j] == j;
    } else {
      var front := RisingThroughOne(n - 1, t - 1, i);
      s := front + [j];
      assert s[t - 1] == j;
      assert i in front && forall k :: k in front ==> k in s;
    }
  }

  /** One attestation, with signature 0, by each listed index. */
  function AttestationsBy(s: seq<nat>): seq<(nat, Signature)> {
    seq(|s|, k requires 0 <= k < |s| => (s[k], 0))
  }

  function ZeroSigned(keys: seq<Key>): set<(Key, Signature)> {
    set k | k in keys :: (k, 0)
  }

  lemma RisingPasses(keys: seq<Key>, s: seq<nat>)
    requires Rising(s, |keys|)
    ensures Attested(keys, |s|, AttestationsBy(s), ZeroSigned(keys)).Ok?
    ensures SigningKeys(keys, AttestationsBy(s)) == KeysAt(keys, Elements(s))
  {
    var atts := AttestationsBy(s);
    AttestedExact(keys, |s|, atts, ZeroSigned(keys));
    forall x | x in KeysAt(keys, Elements(s)) ensures x in SigningKeys(keys, atts) {
      var i :| i in Elements(s) && keys[i] == x;
      var k :| 0 <= k < |s| && s[k] == i;
      assert atts[k].0 == i;
    }
  }

  lemma {:induction false} KeysAtMost(keys: seq<Key>, q: set<nat>)
    requires forall i :: i in q ==> i < |keys|
    ensures |KeysAt(keys, q)| <= |q|
    decreases q
  {
    if i :| i in q {
      KeysAtMost(keys, q - {i});
      assert KeysAt(keys, q) == KeysAt(keys, q - {i}) + {keys[i]};
    }
  }

  /** Two indexes of one key show fewer keys than indexes. */
  lemma RepeatedKeyShowsFewer(keys: seq<Key>, q: set<nat>, i: nat, j: nat)
    requires forall k :: k in q ==> k < |keys|
    requires i in q && j in q && i != j && keys[i] == keys[j]
    ensures |KeysAt(keys, q)| < |q|
  {
    KeysAtMost(keys, q - {j});
    assert KeysAt(keys, q) == KeysAt(keys, q - {j}) by {
      assert i in q - {j};
    }
  }

  lemma {:induction false} AtMostSoManyIndexes(q: set<nat>, n: nat)
    requires forall i :: i in q ==> i < n
    ensures |q| <= n
    decreases n
  {
    if n > 0 {
      AtMostSoManyIndexes(q - {n - 1}, n - 1);
    } else {
      assert q == {};
    }
  }

  lemma RepeatedKeyBreaksThreshold(keys: seq<Key>, threshold: nat, i: nat, j: nat)
    requires i < j < |keys| && keys[i] == keys[j] && 2 <= threshold <= |keys|
    ensures !ThresholdMeansKeys(keys, threshold)
  {
    var s := RisingThroughTwo(|keys|, threshold, i, j);
    RisingPasses(keys, s);
    DistinctCount(s);
    RepeatedKeyShowsFewer(keys, Elements(s), i, j);
    assert Attested(keys, threshold, AttestationsBy(s), ZeroSigned(keys)).Ok?;
  }

  lemma PassingShowsKeys(keys: seq<Key>, threshold: nat, atts: seq<(nat, Signature)>, valid: set<(Key, Signature)>)
    requires Attested(keys, threshold, atts, valid).Ok?
    ensures threshold <= |keys|
    ensures threshold <= 1 || Distinct(keys) ==> |SigningKeys(keys, atts)| >= threshold
  {
    AttestedExact(keys, threshold, atts, valid);
    AttestationExhibitsQuorum(keys, threshold, atts, valid);
    var q := Elements(Indexes(atts));
    AtMostSoManyIndexes(q, |keys|);
    forall x | x in KeysAt(keys, q) ensures x in SigningKeys(keys, atts) {
      var i :| i in q && keys[i] == x;
      var k :| 0 <= k < |atts| && Indexes(atts)[k] == i;
      assert atts[k].0 == i;
    }
    SubsetCount(KeysAt(keys, q), SigningKeys(keys, atts));
    if Distinct(keys) {
      DistinctKeysAt(keys, q);
    } else if threshold == 1 {
      assert atts[0].0 < |keys| && keys[atts[0].0] in SigningKeys(keys, atts);
    }
  }

  lemma {:induction false} SubsetCount<T>(a: set<T>, b: set<T>)
    requires a <= b
    ensures |a| <= |b|
    decreases a
  {
    if x :| x in a {
      SubsetCount(a - {x}, b - {x});
    }
  }

  /**
   * What the bridge's threshold guarantees, for every list of keys and every
   * threshold: each passing check is signed by that many distinct keys if and
   * only if the keys are distinct, or the threshold is at most one, or no check
   * can pass at all. The setters bound the threshold by the number of keys, and
   * do not look for a key listed twice.
   */
  lemma ThresholdMeansKeysIffDistinct(keys: seq<Key>, threshold: nat)
    ensures ThresholdMeansKeys(keys, threshold) <==> threshold <= 1 || threshold > |keys| || Distinct(keys)
  {
    forall atts, valid | Attested(keys, threshold, atts, valid).Ok? && (threshold <= 1 || Distinct(keys))
      ensures |SigningKeys(keys, atts)| >= threshold
    {
      PassingShowsKeys(keys, threshold, atts, valid);
    }
    forall atts, valid ensures Attested(keys, threshold, atts, valid).Ok? ==> threshold <= |keys| {
      if Attested(keys, threshold, atts, valid).Ok? {
        PassingShowsKeys(keys, threshold, atts, valid);
      }
    }
    if 2 <= threshold <= |keys| && !Distinct(keys) {
      var i, j :| 0 <= i < j < |keys| && keys[i] == keys[j];
      RepeatedKeyBreaksThreshold(keys, threshold, i, j);
    }
  }

  // ---------------------------------------------------------------- the contract

  class ControllerQuorums {
    var admins: seq<Address>
    var threshold: nat
    var keys: seq<Key>
    var bridgeThreshold: nat

    /** `initialize`: one admin, threshold one. */
    constructor (admin: Address, keys: seq<Key>, bridgeThreshold: nat)
      ensures Admins() == AdminSet([admin], 1) && AdminsOk(Admins())
      ensures this.keys == keys && this.bridgeThreshold == bridgeThreshold
    {
      admins, threshold, this.keys, this.bridgeThreshold := [admin], 1, keys, bridgeThreshold;
    }

    function Admins(): AdminSet
      reads this
    {
      AdminSet(admins, threshold)
    }

    method RequireAdminMultisig(approvals: seq<Address>, signed: set<Address>) returns (r: Result<bool>)
      ensures r == Approved(Admins(), approvals, signed)
    {
      if |approvals| < threshold {
        return Revert(NotEnoughApprovals);
      }
      for i := 0 to |approvals|
        invariant ApprovedUpTo(admins, approvals, signed, i) == Ok(true)
      {
        var approver := approvals[i];
        var isAdmin := false;
        for j := 0 to |admins|
          invariant isAdmin <==> approver in admins[..j]
        {
          assert admins[..j + 1] == admins[..j] + [admins[j]];
          if admins[j] == approver {
            isAdmin := true;
          }
        }
        assert admins[..|admins|] == admins;
        if !isAdmin {
          ApprovalFailsEarly(admins, approvals, signed, i + 1);
          return Revert(NotAnAdmin);
        }
        for j := 0 to i
          invariant approver !in approvals[..j]
        {
          assert approvals[..j + 1] == approvals[..j] + [approvals[j]];
          if approvals[j] == approver {
            assert approver == approvals[..i][j];
            ApprovalFailsEarly(admins, approvals, signed, i + 1);
            return Revert(DuplicateApproval);
          }
        }
        if approver !in signed {
          ApprovalFailsEarly(admins, approvals, signed, i + 1);
          return Revert(NotAuthorized);
        }
      }
      return Ok(true);
    }

    method ChangeAdmins(c: AdminCall, signed: set<Address>) returns (r: Result<bool>)
      modifies this
      ensures var s := Changed(old(Admins()), c, signed);
              && r == (if s.Ok? then Ok(true) else Revert(s.why))
              && Admins() == if s.Ok? then s.value else old(Admins())
      ensures keys == old(keys) && bridgeThreshold == old(bridgeThreshold)
      ensures r.Ok? ==> Admissible(old(Admins()), c)
      ensures r.Ok? && c.RemoveAdmin? ==> forall x :: x in admins <==> x in old(admins) && x != c.admin
    {
      ChangeGoesThroughIff(Admins(), c, signed);
      var approved := RequireAdminMultisig(c.approvals, signed);
      if approved.Revert? {
        return approved;
      }
      match c {
        case AddAdmin(_, admin) =>
          if admin in admins {
            return Revert(AdminExists);
          }
          admins := admins + [admin];
        case RemoveAdmin(_, admin) =>
          if |admins| <= threshold {
            return Revert(BelowThreshold);
          }
          var found, kept := false, [];
          for i := 0 to |admins|
            invariant admins == old(admins) && threshold == old(threshold)
            invariant keys == old(keys) && bridgeThreshold == old(bridgeThreshold)
            invariant found <==> admin in admins[..i]
            invariant kept == Without(admins[..i], admin)
          {
            assert admins[..i + 1][..i] == admins[..i];
            assert admins[..i + 1] == admins[..i] + [admins[i]];
            if admins[i] != admin {
              kept := kept + [admins[i]];
            } else {
              found := true;
            }
          }
          assert admins[..|admins|] == admins;
          if !found {
            return Revert(AdminNotFound);
          }
          admins := kept;
        case SetThreshold(_, t) =>
          if t < 1 || t > |admins| {
            return Revert(InvalidThreshold);
          }
          threshold := t;
      }
      return Ok(true);
    }

    method RequireBridge(atts: seq<(nat, Signature)>, valid: set<(Key, Signature)>) returns (r: Result<bool>)
      ensures r == Attested(keys, bridgeThreshold, atts, valid)
    {
      if |atts| < bridgeThreshold {
        return Revert(NotEnoughApprovals);
      }
      var lastIndex, validCount := -1, 0;
      for i := 0 to |atts|
        invariant AttestedUpTo(keys, atts, valid, i) == Ok(lastIndex) && validCount == i
      {
        var (index, sig) := atts[i];
        if index <= lastIndex {
          AttestationFailsEarly(keys, atts, valid, i + 1);
          return Revert(UnsortedAttestations);
        }
        lastIndex := index;
        if index >= |keys| {
          AttestationFailsEarly(keys, atts, valid, i + 1);
          return Revert(InvalidKeyIndex);
        }
        if (keys[index], sig) !in valid {
          AttestationFailsEarly(keys, atts, valid, i + 1);
          return Revert(BadSignature);
        }
        validCount := validCount + 1;
      }
      return Ok(true);
    }
  }

  lemma {:induction false} ApprovalFailsEarly(admins: seq<Address>, approvals: seq<Address>, signed: set<Address>,
                                              n: nat)
    requires n <= |approvals| && ApprovedUpTo(admins, approvals, signed, n).Revert?
    ensures forall k ::
              n <= k <= |approvals| ==>
                ApprovedUpTo(admins, approvals, signed, k) == ApprovedUpTo(admins, approvals, signed, n)
    decreases |approvals| - n
  {
    if n < |approvals| {
      assert ApprovedUpTo(admins, approvals, signed, n + 1) == ApprovedUpTo(admins, approvals, signed, n);
      ApprovalFailsEarly(admins, approvals, signed, n + 1);
    }
  }

  lemma {:induction false} AttestationFailsEarly(keys: seq<Key>, atts: seq<(nat, Signature)>,
                                                 valid: set<(Key, Signature)>, n: nat)
    requires n <= |atts| && AttestedUpTo(keys, atts, valid, n).Revert?
    ensures forall k :: n <= k <= |atts| ==> AttestedUpTo(keys, atts, valid, k) == AttestedUpTo(keys, atts, valid, n)
    decreases |atts| - n
  {
    if n < |atts| {
      assert AttestedUpTo(keys, atts, valid, n + 1) == AttestedUpTo(keys, atts, valid, n);
      AttestationFailsEarly(keys, atts, valid, n + 1);
    }
  }
}
