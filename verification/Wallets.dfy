/**
 The wallets and wallet_policies tables, with the constraints and indexes that decide
 whether a write happens, and the statements the repository runs against them.
 */
module WalletTables {
  import opened Results
  import opened Transactions
  import opened Int64
  import opened Identifiers
  import opened Policies

  datatype Role = Owner | Bot | UnknownRole(name: string)

  datatype Status = Pending | Active | Disabled | UnknownStatus(name: string)

  predicate CanTransition(s: Status, next: Status)
  {
    match s
    case Pending => next == Active || next == Disabled
    case Active => next == Disabled
    case Disabled => next == Pending
    case UnknownStatus(_) => false
  }

  /** Generated row identifiers; the generator never repeats one. */
  type Id = nat

  datatype Wallet = Wallet(user: string, address: string, chainID: int, role: Role, status: Status,
                           title: string, verifiedAt: Option<int>)

  /** `policies` is keyed by wallet: wallet_policies_wallet_id_key admits one row per wallet. */
  datatype Tables = Tables(users: set<string>, wallets: map<Id, Wallet>, policies: map<Id, Policy>)

  datatype Error =
    | InvalidAddress | ZeroAddress | NoUser | NoChain | InvalidRole
    | InvalidPolicy | AlreadyLinked | CheckFailed | ForeignKeyFailed | UniqueFailed
    | PolicyRefused | NotCommitted | NotFound | NotOwned | InvalidStatus | IllegalTransition | WrongChain | Unreachable

  /** The burn address: `0x` and forty zeros. */
  predicate IsZero(a: string) {
    |a| == 42 && a[0] == '0' && a[1] == 'x' && forall i :: 2 <= i < 42 ==> a[i] == '0'
  }

  /** domain.NewWallet. */
  function NewWallet(user: string, address: string, chainID: int, role: Role, title: string): Result<Wallet, Error>
  {
    match ParseAddress(address)
    case None => Err(InvalidAddress)
    case Some(a) =>
      if IsZero(a) then Err(ZeroAddress)
      else if user == "" then Err(NoUser)
      else if chainID == 0 then Err(NoChain)
      else if role.UnknownRole? then Err(InvalidRole)
      else Ok(Wallet(user, a, chainID, role, Pending, title, None))
  }

  // ---- Constraints ----

  /** The CHECK constraints of the wallets table. */
  predicate RowOk(w: Wallet)
  {
    && CanonicalHex(w.address, 40) && !IsZero(w.address) && w.chainID > 0
    && !w.role.UnknownRole? && !w.status.UnknownStatus?
    && (w.verifiedAt == None || w.status != Pending)
  }

  predicate SameAddress(a: Wallet, b: Wallet) {
    a.user == b.user && a.chainID == b.chainID && a.address == b.address
  }

  /** Both would be the active bot wallet of one account on one chain. */
  predicate SameBotSlot(a: Wallet, b: Wallet)
  {
    && a.role == Bot && a.status == Active && b.role == Bot && b.status == Active
    && a.user == b.user && a.chainID == b.chainID
  }

  predicate Clashes(ws: map<Id, Wallet>, id: Id, w: Wallet)
  {
    exists k <- ws :: k != id && (SameAddress(ws[k], w) || SameBotSlot(ws[k], w))
  }

  /** Writes one wallet row, or says which constraint refuses it. */
  function PutWallet(t: Tables, id: Id, w: Wallet): Result<Tables, Error>
  {
    if !RowOk(w) then Err(CheckFailed)
    else if Clashes(t.wallets, id, w) then Err(UniqueFailed)
    else if w.user !in t.users then Err(ForeignKeyFailed)
    else Ok(t.(wallets := t.wallets[id := w]))
  }

  // ---- Statements ----

  /** The row an insert makes of a new wallet. */
  function PendingRow(w: Wallet): Wallet {
    w.(chainID := Wrap(w.chainID), status := Pending, verifiedAt := None)
  }

  /** Link with no other transaction beside it; `inserts` and `limits` say whether the inserts reach the database. */
  function LinkTx(t: Tables, id: Id, w: Wallet, p: Policy, inserts: bool, limits: bool, ending: Ending)
    : (Tables, Result<Wallet, Error>)
  {
    var row := PendingRow(w);
    if !Valid(p) then (t, Err(InvalidPolicy))
    else if !inserts then (t, Err(NotCommitted))
    else match PutWallet(t, id, row)
      case Err(UniqueFailed) => (t, Err(AlreadyLinked))
      case Err(e) => (t, Err(e))
      case Ok(t1) =>
        if !limits then (t, Err(NotCommitted))
        else if id in t1.policies then (t, Err(UniqueFailed))
        else match Store(p)
          case Err(_) => (t, Err(PolicyRefused))
          case Ok(q) =>
            var t2 := t1.(policies := t1.policies[id := q]);
            match ending
            case Committed => (t2, Ok(row))
            case RolledBack => (t, Err(NotCommitted))
            case AnswerLost => (t2, Err(NotCommitted))
  }

  /** UPDATE ... WHERE id = $1 AND status = 'pending'; no matching row is not an error. */
  function MarkVerifiedTx(t: Tables, id: Id, at: int): (Tables, Result<(), Error>)
  {
    if id !in t.wallets || t.wallets[id].status != Pending then (t, Ok(()))
    else match PutWallet(t, id, t.wallets[id].(status := Active, verifiedAt := Some(at)))
      case Err(e) => (t, Err(e))
      case Ok(t') => (t', Ok(()))
  }

  /** The write half of SetStatus, which does not look at the current status again. */
  function SetStatusTx(t: Tables, id: Id, next: Status): (Tables, Result<(), Error>)
  {
    if id !in t.wallets then (t, Ok(()))
    else
      var w := t.wallets[id];
      match PutWallet(t, id, w.(status := next, verifiedAt := if next == Pending then None else w.verifiedAt))
      case Err(e) => (t, Err(e))
      case Ok(t') => (t', Ok(()))
  }

  function UpdatePolicyTx(t: Tables, id: Id, p: Policy): (Tables, Result<(), Error>)
  {
    if !Valid(p) then (t, Err(InvalidPolicy))
    else if id !in t.policies then (t, Err(NotFound))
    else match Store(p)
      case Err(_) => (t, Err(PolicyRefused))
      case Ok(q) => (t.(policies := t.policies[id := q]), Ok(()))
  }

  // ---- How the tables may change ----

  function Rank(s: Status): nat {
    match s
    case Pending => 0
    case Active => 1
    case Disabled => 2
    case UnknownStatus(_) => 3
  }

  /** The life of one row: identity fixed, status only forward, proof set once, disabled for good. */
  ghost predicate Evolves(w: Wallet, w': Wallet)
  {
    && w'.user == w.user && w'.address == w.address && w'.chainID == w.chainID
    && w'.role == w.role && w'.title == w.title
    && Rank(w.status) <= Rank(w'.status)
    && (Rank(w.status) == Rank(w'.status) ==> w == w')
    && (w.verifiedAt.Some? ==> w'.verifiedAt == w.verifiedAt)
  }

  ghost predicate Grows(t: Tables, t': Tables)
  {
    t'.users == t.users && forall id <- t.wallets :: id in t'.wallets && Evolves(t.wallets[id], t'.wallets[id])
  }

  lemma GrowsReflexive(t: Tables)
    ensures Grows(t, t)
  {
  }

  lemma GrowsTransitive(a: Tables, b: Tables, c: Tables)
    requires Grows(a, b) && Grows(b, c)
    ensures Grows(a, c)
  {
    forall id | id in a.wallets
      ensures id in c.wallets && Evolves(a.wallets[id], c.wallets[id])
    {
      assert Evolves(a.wallets[id], b.wallets[id]) && Evolves(b.wallets[id], c.wallets[id]);
    }
  }

  // ---- What every statement keeps ----

  ghost predicate NoClash(ws: map<Id, Wallet>)
  {
    forall a, b :: a in ws && b in ws && a != b ==> !SameAddress(ws[a], ws[b]) && !SameBotSlot(ws[a], ws[b])
  }

  /** A pending wallet has no proof of verification and an active one always has one. */
  ghost predicate ProofOk(w: Wallet)
  {
    (w.status == Pending ==> w.verifiedAt == None) && (w.status == Active ==> w.verifiedAt.Some?)
  }

  ghost predicate WalletOk(users: set<string>, w: Wallet) {
    RowOk(w) && ProofOk(w) && w.user in users
  }

  /** A stored policy meets the bounds and needs no further rounding. */
  ghost predicate PolicyOk(p: Policy) {
    Valid(p) && Rounded(p) == p
  }

  ghost predicate TablesOk(t: Tables)
  {
    && (forall id <- t.wallets :: WalletOk(t.users, t.wallets[id]))
    && NoClash(t.wallets)
    && t.policies.Keys == t.wallets.Keys
    && (forall id <- t.policies :: PolicyOk(t.policies[id]))
  }

  lemma PutKeepsNoClash(ws: map<Id, Wallet>, id: Id, w: Wallet)
    requires NoClash(ws) && !Clashes(ws, id, w)
    ensures NoClash(ws[id := w])
  {
    var ws' := ws[id := w];
    forall a, b | a in ws' && b in ws' && a != b
      ensures !SameAddress(ws'[a], ws'[b]) && !SameBotSlot(ws'[a], ws'[b])
    {
      if a == id {
        assert b in ws;
      } else if b == id {
        assert a in ws;
      }
    }
  }

  lemma InsertKeepsTables(t: Tables, id: Id, w: Wallet, q: Policy)
    requires TablesOk(t) && id !in t.wallets && WalletOk(t.users, w) && !Clashes(t.wallets, id, w) && PolicyOk(q)
    ensures var t' := t.(wallets := t.wallets[id := w], policies := t.policies[id := q]);
            TablesOk(t') && Grows(t, t')
  {
    hide NoClash, Clashes, RowOk, ProofOk, PolicyOk;
    PutKeepsNoClash(t.wallets, id, w);
  }

  lemma ReplaceKeepsTables(t: Tables, id: Id, w: Wallet)
    requires TablesOk(t) && id in t.wallets && WalletOk(t.users, w) && !Clashes(t.wallets, id, w)
    requires Evolves(t.wallets[id], w)
    ensures var t' := t.(wallets := t.wallets[id := w]); TablesOk(t') && Grows(t, t')
  {
    hide NoClash, Clashes, RowOk, ProofOk, PolicyOk;
    PutKeepsNoClash(t.wallets, id, w);
  }

  /** The link transaction keeps every constraint, gives a new wallet exactly one policy, and touches no other row. */
  lemma LinkKeepsTables(t: Tables, id: Id, w: Wallet, p: Policy, inserts: bool, limits: bool, ending: Ending)
    requires TablesOk(t) && id !in t.wallets
    ensures var t' := LinkTx(t, id, w, p, inserts, limits, ending).0; TablesOk(t') && Grows(t, t')
  {
    hide TablesOk, Grows, PolicyOk, RowOk;
    GrowsReflexive(t);
    var t' := LinkTx(t, id, w, p, inserts, limits, ending).0;
    if t' != t {
      StoredPolicyOk(p);
      InsertKeepsTables(t, id, PendingRow(w), t'.policies[id]);
      assert t' == t.(wallets := t.wallets[id := PendingRow(w)], policies := t.policies[id := t'.policies[id]]);
    }
  }

  lemma StoredPolicyOk(p: Policy)
    requires Valid(p)
    ensures Store(p).Ok? ==> Store(p).value == Rounded(p) && PolicyOk(Store(p).value)
  {
    StoreIsExact(p);
    Idempotent(p);
  }

  lemma MarkKeepsTables(t: Tables, id: Id, at: int)
    requires TablesOk(t)
    ensures TablesOk(MarkVerifiedTx(t, id, at).0) && Grows(t, MarkVerifiedTx(t, id, at).0)
  {
    var t' := MarkVerifiedTx(t, id, at).0;
    if t' != t {
      var w := t.wallets[id].(status := Active, verifiedAt := Some(at));
      assert WalletOk(t.users, t.wallets[id]);
      ReplaceKeepsTables(t, id, w);
      assert t' == t.(wallets := t.wallets[id := w]);
    }
  }

  lemma DisablingNeverClashes(t: Tables, id: Id)
    requires NoClash(t.wallets) && id in t.wallets
    ensures !Clashes(t.wallets, id, t.wallets[id].(status := Disabled))
  {
    forall k | k in t.wallets && k != id
      ensures !SameAddress(t.wallets[k], t.wallets[id].(status := Disabled))
    {
      assert !SameAddress(t.wallets[k], t.wallets[id]);
    }
  }

  /** Disabling a wallet is never refused. */
  lemma DisableKeepsTables(t: Tables, id: Id)
    requires TablesOk(t)
    ensures TablesOk(SetStatusTx(t, id, Disabled).0) && Grows(t, SetStatusTx(t, id, Disabled).0)
    ensures SetStatusTx(t, id, Disabled).1 == Ok(())
    ensures id in t.wallets ==>
              SetStatusTx(t, id, Disabled).0 == t.(wallets := t.wallets[id := t.wallets[id].(status := Disabled)])
  {
    if id in t.wallets {
      var w := t.wallets[id].(status := Disabled);
      assert WalletOk(t.users, t.wallets[id]);
      DisablingNeverClashes(t, id);
      ReplaceKeepsTables(t, id, w);
    }
  }

  lemma UpdateKeepsTables(t: Tables, id: Id, p: Policy)
    requires TablesOk(t)
    ensures TablesOk(UpdatePolicyTx(t, id, p).0) && Grows(t, UpdatePolicyTx(t, id, p).0)
    ensures UpdatePolicyTx(t, id, p).0.wallets == t.wallets
  {
    hide NoClash, WalletOk, PolicyOk, Valid, Store;
    GrowsReflexive(t);
    var (t', r) := UpdatePolicyTx(t, id, p);
    if r.Ok? {
      StoredPolicyOk(p);
      assert t'.policies == t.policies[id := Store(p).value];
    } else {
      assert t' == t;
    }
  }
}
