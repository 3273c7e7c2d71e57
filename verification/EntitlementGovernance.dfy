/** Entitlement governance: an append-only log of grants and revocations, the current-state rows authorization
    reads, and the three acts that may write both. */
module EntitlementGovernance {
  import opened Options

  type AccountId = string
  type Capability = string
  type Instant = int

  const GOVERN: Capability := "entitlement:govern"

  predicate Bootstrappable(c: Capability) { c == GOVERN }

  predicate Governed(c: Capability) {
    c in ["commercial-policy:govern", "marketplace-policy:govern", "product:tax-classify",
          "participant:commerce-approve", "risk-policy:govern"]
  }

  datatype AccountStatus = ACTIVE | DISABLED

  datatype Verification = SelfServiceToken | Administrative | Grandfathered

  datatype Account = Account(status: AccountStatus, verifiedAt: Option<Instant>, verifiedVia: Option<Verification>)

  datatype Key = Key(account: AccountId, capability: Capability)

  /** The current-state row: revoked once `revokedAt` is set. */
  datatype Entitlement = Entitlement(active: bool, grantedAt: Instant, revokedAt: Option<Instant>)

  datatype Action = GRANT | REVOKE

  /** Why an act was permitted; only a governed one names its actor. */
  datatype Basis = Governor(actor: AccountId) | FirstGrant

  datatype Act = Act(key: Key, action: Action, basis: Basis, at: Instant)

  /** What happened, in order: acts, and accounts created or changed elsewhere. */
  datatype Event = Acted(act: Act) | AccountSet(id: AccountId, account: Account)

  // ---- What a log amounts to ----

  function Accounts(h: seq<Event>): map<AccountId, Account> {
    if h == [] then map[]
    else
      var m := Accounts(h[..|h| - 1]);
      match h[|h| - 1]
      case AccountSet(id, account) => m[id := account]
      case Acted(_) => m
  }

  function Written(m: map<Key, Entitlement>, a: Act): map<Key, Entitlement> {
    match a.action
    case GRANT => m[a.key := Entitlement(true, a.at, None)]
    case REVOKE => if a.key in m then m[a.key := m[a.key].(active := false, revokedAt := Some(a.at))] else m
  }

  /** The current-state rows as the fold of the act log. */
  function Replay(h: seq<Event>): map<Key, Entitlement> {
    if h == [] then map[]
    else
      match h[|h| - 1]
      case Acted(a) => Written(Replay(h[..|h| - 1]), a)
      case AccountSet(_, _) => Replay(h[..|h| - 1])
  }

  predicate Active(m: map<Key, Entitlement>, k: Key) { k in m && m[k].active }

  predicate ActiveAccount(m: map<AccountId, Account>, id: AccountId) { id in m && m[id].status == ACTIVE }

  function FirstGranted(h: seq<Event>): Option<AccountId> {
    if h == [] then None
    else
      var before := FirstGranted(h[..|h| - 1]);
      if before.None? && h[|h| - 1].Acted? && h[|h| - 1].act.basis.FirstGrant? then Some(h[|h| - 1].act.key.account)
          else before
  }

  // ---- The law of the log ----

  /** What may follow `h`: an act changes what it says it changes, on an active account, and is either the single
      first grant or made by an active governor over the closed list. */
  predicate Lawful(h: seq<Event>, e: Event) {
    match e
    case AccountSet(_, _) => true
    case Acted(a) =>
      && ActiveAccount(Accounts(h), a.key.account)
      && (a.action == GRANT <==> !Active(Replay(h), a.key))
      && match a.basis
         case Governor(actor) =>
           Governed(a.key.capability) && ActiveAccount(Accounts(h), actor) && Active(Replay(h), Key(actor, GOVERN))
         case FirstGrant =>
           var account := Accounts(h)[a.key.account];
           && a.action == GRANT && a.key.capability == GOVERN && FirstGranted(h).None?
           && account.verifiedAt.Some? && account.verifiedVia == Some(SelfServiceToken)
  }

  predicate LawfulLog(h: seq<Event>) {
    h == [] || (LawfulLog(h[..|h| - 1]) && Lawful(h[..|h| - 1], h[|h| - 1]))
  }

  lemma Append(h: seq<Event>, e: Event)
    ensures LawfulLog(h + [e]) <==> LawfulLog(h) && Lawful(h, e)
    ensures Accounts(h + [e]) == if e.AccountSet? then Accounts(h)[e.id := e.account] else Accounts(h)
    ensures Replay(h + [e]) == if e.Acted? then Written(Replay(h), e.act) else Replay(h)
    ensures FirstGranted(h + [e]) ==
            if FirstGranted(h).None? && e.Acted? && e.act.basis.FirstGrant? then Some(e.act.key.account)
                else FirstGranted(h)
  {
    assert (h + [e])[..|h|] == h;
  }

  /** The actions recorded for one account and capability. */
  function Actions(h: seq<Event>, k: Key): seq<Action> {
    if h == [] then []
    else
      var rest := Actions(h[..|h| - 1], k);
      match h[|h| - 1]
      case Acted(a) => if a.key == k then rest + [a.action] else rest
      case AccountSet(_, _) => rest
  }

  /** Acts alternate, starting with a grant, and the row is active exactly after an odd number of them. */
  lemma {:induction false} Alternates(h: seq<Event>, k: Key)
    requires LawfulLog(h)
    ensures forall i | 0 <= i < |Actions(h, k)| :: Actions(h, k)[i] == if i % 2 == 0 then GRANT else REVOKE
    ensures Active(Replay(h), k) <==> |Actions(h, k)| % 2 == 1
  {
    if h != [] {
      Alternates(h[..|h| - 1], k);
    }
  }

  /** The last act of this kind on this row. */
  predicate LastAct(h: seq<Event>, k: Key, action: Action, i: int) {
    && 0 <= i < |h| && ActsOn(h[i], k, action) && forall j | i < j < |h| :: !ActsOn(h[j], k, action)
  }

  predicate ActsOn(e: Event, k: Key, action: Action) { e.Acted? && e.act.key == k && e.act.action == action }

  /** The last act of this kind on this row was at `at`. */
  ghost predicate LastAt(h: seq<Event>, k: Key, action: Action, at: Instant) {
    exists i :: LastAct(h, k, action, i) && h[i].act.at == at
  }

  /** A row carries the time of its last grant and, once revoked, of its last revocation. */
  lemma {:induction false} RowTimes(h: seq<Event>, k: Key)
    requires LawfulLog(h) && k in Replay(h)
    ensures LastAt(h, k, GRANT, Replay(h)[k].grantedAt)
    ensures Replay(h)[k].active <==> Replay(h)[k].revokedAt.None?
    ensures Replay(h)[k].revokedAt.Some? ==> LastAt(h, k, REVOKE, Replay(h)[k].revokedAt.value)
  {
    hide LastAt, Lawful;
    var before, n := h[..|h| - 1], |h| - 1;
    if ActsOn(h[n], k, GRANT) {
      NewestAct(h, k, GRANT);
    } else {
      RowTimes(before, k);
      StillLast(h, k, GRANT, Replay(before)[k].grantedAt);
      if ActsOn(h[n], k, REVOKE) {
        NewestAct(h, k, REVOKE);
      } else if Replay(before)[k].revokedAt.Some? {
        StillLast(h, k, REVOKE, Replay(before)[k].revokedAt.value);
      }
    }
  }

  lemma NewestAct(h: seq<Event>, k: Key, action: Action)
    requires h != [] && ActsOn(h[|h| - 1], k, action)
    ensures LastAt(h, k, action, h[|h| - 1].act.at)
  {
    assert LastAct(h, k, action, |h| - 1);
  }

  lemma StillLast(h: seq<Event>, k: Key, action: Action, at: Instant)
    requires h != [] && LastAt(h[..|h| - 1], k, action, at) && !ActsOn(h[|h| - 1], k, action)
    ensures LastAt(h, k, action, at)
  {
    var before := h[..|h| - 1];
    var i :| LastAct(before, k, action, i) && before[i].act.at == at;
    forall j | i < j < |h| ensures !ActsOn(h[j], k, action) {
      assert j < |h| - 1 ==> h[j] == before[j];
    }
    assert h[i] == before[i] && LastAct(h, k, action, i);
  }

  /** Every governed act: an ACTIVE account holding `entitlement:govern` at that point of the log. */
  lemma {:induction false} EveryActAuthorized(h: seq<Event>, i: nat)
    requires LawfulLog(h) && i < |h| && h[i].Acted?
    ensures h[i].act.basis.Governor? ==>
              ActiveAccount(Accounts(h[..i]), h[i].act.basis.actor)
                  && Active(Replay(h[..i]), Key(h[i].act.basis.actor, GOVERN))
    ensures ActiveAccount(Accounts(h[..i]), h[i].act.key.account)
    ensures LawfulLog(h[..i])
  {
    if i < |h| - 1 {
      EveryActAuthorized(h[..|h| - 1], i);
      assert h[..|h| - 1][..i] == h[..i];
    }
  }

  /** Governors are exactly the account the first grant went to. */
  lemma {:induction false} OneGovernor(h: seq<Event>, x: AccountId)
    requires LawfulLog(h)
    ensures Active(Replay(h), Key(x, GOVERN)) <==> FirstGranted(h) == Some(x)
  {
    if h != [] {
      OneGovernor(h[..|h| - 1], x);
    }
  }

  /** The first grant happens at most once: whatever lawfully follows it leaves its account the only governor, and
      no later act is a first grant or touches `entitlement:govern`. */
  lemma {:induction false} GovernorForever(h: seq<Event>, t: seq<Event>, x: AccountId)
    requires LawfulLog(h + t) && FirstGranted(h).Some?
    ensures FirstGranted(h + t) == FirstGranted(h)
    ensures Active(Replay(h + t), Key(x, GOVERN)) <==> FirstGranted(h) == Some(x)
    ensures forall e | e in t && e.Acted? :: e.act.basis.Governor? && e.act.key.capability != GOVERN
  {
    OneGovernor(h + t, x);
    if t == [] {
      assert h + t == h;
    } else {
      var before, e := t[..|t| - 1], t[|t| - 1];
      assert h + t == (h + before) + [e] && t == before + [e];
      Append(h + before, e);
      GovernorForever(h, before, x);
    }
  }

  lemma {:induction false} PrefixLawful(h: seq<Event>, n: nat)
    requires LawfulLog(h) && n <= |h|
    ensures LawfulLog(h[..n])
    ensures n > 0 ==> Lawful(h[..n - 1], h[n - 1])
  {
    if n < |h| {
      PrefixLawful(h[..|h| - 1], n);
      assert h[..|h| - 1][..n] == h[..n];
      assert n > 0 ==> h[..|h| - 1][..n - 1] == h[..n - 1];
    } else {
      assert h[..n] == h;
    }
  }

  /** No capability off the closed list, `entitlement:govern` aside, ever has a row for anyone. */
  lemma {:induction false} ClosedSurface(h: seq<Event>, k: Key)
    requires LawfulLog(h) && k in Replay(h)
    ensures Governed(k.capability) || k.capability == GOVERN
  {
    if h[|h| - 1].AccountSet? || h[|h| - 1].act.key != k {
      ClosedSurface(h[..|h| - 1], k);
    }
  }

  // ---- The authority check ----

  datatype Subject = Subject(status: AccountStatus, capabilities: set<Capability>)

  datatype Reason = InternalAccountRequired | InternalAccountDisabled | InternalCapabilityNotGranted

  datatype Ruling = Allow | Deny(reason: Reason)

  function Evaluate(c: Capability, subject: Option<Subject>): Ruling {
    match subject
    case None => Deny(InternalAccountRequired)
    case Some(s) =>
      if s.status != ACTIVE then Deny(InternalAccountDisabled)
      else if c !in s.capabilities then Deny(InternalCapabilityNotGranted)
      else Allow
  }

  /** The subject as resolved from the stored rows at the moment of asking. */
  function Resolve(accounts: map<AccountId, Account>, rows: map<Key, Entitlement>, id: AccountId): Option<Subject> {
    if id !in accounts then None
    else Some(Subject(accounts[id].status, set k | k in rows && k.account == id && rows[k].active :: k.capability))
  }

  lemma AllowedExactly(accounts: map<AccountId, Account>, rows: map<Key, Entitlement>, id: AccountId, c: Capability)
    ensures Evaluate(c, Resolve(accounts, rows, id)).Allow? <==> ActiveAccount(accounts, id) && Active(rows, Key(id, c))
    ensures Evaluate(c, Resolve(accounts, rows, id)) == Deny(InternalAccountRequired) <==> id !in accounts
    ensures Evaluate(c, Resolve(accounts, rows, id)) == Deny(InternalAccountDisabled) <==>
            id in accounts && accounts[id].status == DISABLED
  {
    assert Active(rows, Key(id, c)) ==> Key(id, c).capability == c;
  }

  // ---- The three acts ----

  datatype Refusal =
    | CapabilityNotBootstrappable | CapabilityNotGovernable | AccountNotFound | AccountDisabled
    | EmailNotSelfVerified | CapabilityAlreadyHeld | FirstGrantAlreadyClaimed
    | ActorNotAuthorized | EntitlementAlreadyActive | EntitlementNotActive | LastEntitlementGovernor

  datatype Reply = Done | AlreadyBootstrapped | Refused(why: Refusal)

  function Holders(rows: map<Key, Entitlement>, c: Capability): set<Key> {
    set k | k in rows && k.capability == c && rows[k].active
  }

  lemma HoldersExactly(h: seq<Event>)
    requires LawfulLog(h)
    ensures Holders(Replay(h), GOVERN) == if FirstGranted(h).Some? then {Key(FirstGranted(h).value, GOVERN)} else {}
    ensures |Holders(Replay(h), GOVERN)| <= 1
  {
    forall k: Key | k.capability == GOVERN
      ensures Active(Replay(h), k) <==> FirstGranted(h) == Some(k.account)
    {
      OneGovernor(h, k.account);
      assert k == Key(k.account, GOVERN);
    }
    if FirstGranted(h).Some? {
      var k := Key(FirstGranted(h).value, GOVERN);
      assert Holders(Replay(h), GOVERN) == {k};
    } else {
      assert Holders(Replay(h), GOVERN) == {};
    }
  }

  /** Why a first grant is refused: the first guard that fails. */
  predicate BootstrapRefusal(h: seq<Event>, account: AccountId, c: Capability, why: Refusal) {
    if why == CapabilityNotBootstrappable then c != GOVERN
    else if why == AccountNotFound then c == GOVERN && account !in Accounts(h)
    else
      && c == GOVERN && account in Accounts(h)
      && var row := Accounts(h)[account];
         match why
         case FirstGrantAlreadyClaimed => FirstGranted(h) !in {None, Some(account)}
         case AccountDisabled => FirstGranted(h) in {None, Some(account)} && row.status == DISABLED
         case EmailNotSelfVerified =>
           && FirstGranted(h) in {None, Some(account)} && row.status == ACTIVE
           && (row.verifiedAt.None? || row.verifiedVia != Some(SelfServiceToken))
         case _ => false
  }

  predicate Governs(h: seq<Event>, actor: AccountId) {
    ActiveAccount(Accounts(h), actor) && Active(Replay(h), Key(actor, GOVERN))
  }

  /** The same for a governed change. */
  predicate GovernedRefusal(h: seq<Event>, actor: AccountId, k: Key, action: Action, why: Refusal) {
    var open := Governed(k.capability) || (action.REVOKE? && k.capability == GOVERN);
    match why
    case CapabilityNotGovernable => !open
    case ActorNotAuthorized => open && !Governs(h, actor)
    case AccountNotFound => open && Governs(h, actor) && k.account !in Accounts(h)
    case AccountDisabled =>
      open && Governs(h, actor) && k.account in Accounts(h) && Accounts(h)[k.account].status == DISABLED
    case EntitlementAlreadyActive =>
      open && Governs(h, actor) && ActiveAccount(Accounts(h), k.account) && action.GRANT? && Active(Replay(h), k)
    case EntitlementNotActive =>
      open && Governs(h, actor) && ActiveAccount(Accounts(h), k.account) && action.REVOKE? && !Active(Replay(h), k)
    case LastEntitlementGovernor =>
      && Governs(h, actor) && ActiveAccount(Accounts(h), k.account)
      && action.REVOKE? && k.capability == GOVERN && FirstGranted(h) == Some(k.account)
    case _ => false
  }

  class Registry {
    var accounts: map<AccountId, Account>
    var rows: map<Key, Entitlement>
    /** The once-ever marker: the account of the first grant. */
    var marker: Option<AccountId>
    /** The stored acts, with the account changes between them. */
    var history: seq<Event>

    /** Rows, accounts and marker are what the log says they are, and the log is lawful. */
    ghost predicate Valid()
      reads this
    {
      && LawfulLog(history) && rows == Replay(history) && accounts == Accounts(history)
          && marker == FirstGranted(history)
    }

    constructor ()
      ensures Valid() && history == []
    {
      accounts, rows, marker, history := map[], map[], None, [];
    }

    /** An account created, disabled, re-enabled or verified elsewhere. */
    method SetAccount(id: AccountId, account: Account)
      requires Valid()
      modifies this
      ensures Valid() && history == old(history) + [AccountSet(id, account)]
    {
      Append(history, AccountSet(id, account));
      accounts := accounts[id := account];
      history := history + [AccountSet(id, account)];
    }

    /** The act and the row it changes, together. */
    method WriteChange(a: Act)
      requires Valid() && Lawful(history, Acted(a))
      modifies this
      ensures Valid() && history == old(history) + [Acted(a)] && accounts == old(accounts)
      ensures a.action.GRANT? ==> rows == old(rows)[a.key := Entitlement(true, a.at, None)]
      ensures a.action.REVOKE? ==>
                && a.key in old(rows)
                && rows == old(rows)[a.key := Entitlement(false, old(rows)[a.key].grantedAt, Some(a.at))]
    {
      Append(history, Acted(a));
      if a.action.GRANT? {
        rows := rows[a.key := Entitlement(true, a.at, None)];
      } else {
        rows := rows[a.key := rows[a.key].(active := false, revokedAt := Some(a.at))];
      }
      if a.basis.FirstGrant? { marker := Some(a.key.account); }
      history := history + [Acted(a)];
    }

    method BootstrapFirst(account: AccountId, c: Capability, at: Instant) returns (r: Reply)
      requires Valid()
      modifies this
      ensures Valid()
      ensures r.Done? <==> Lawful(old(history), Acted(Act(Key(account, c), GRANT, FirstGrant, at)))
      ensures r.Done? <==>
                && c == "entitlement:govern" && old(marker).None? && account in accounts
                && accounts[account].status == ACTIVE && accounts[account].verifiedAt.Some?
                && accounts[account].verifiedVia == Some(SelfServiceToken)
      ensures history == if r.Done? then old(history) + [Acted(Act(Key(account, c), GRANT, FirstGrant, at))]
                else old(history)
      ensures r.AlreadyBootstrapped? ==>
                c == GOVERN && FirstGranted(history) == Some(account) && ActiveAccount(accounts, account)
      ensures r.Refused? ==> BootstrapRefusal(old(history), account, c, r.why)
    {
      if !Bootstrappable(c) { return Refused(CapabilityNotBootstrappable); }
      if account !in accounts { return Refused(AccountNotFound); }
      if marker.Some? && marker.value != account { return Refused(FirstGrantAlreadyClaimed); }
      var row := accounts[account];
      if row.status != ACTIVE { return Refused(AccountDisabled); }
      if row.verifiedAt.None? || row.verifiedVia != Some(SelfServiceToken) { return Refused(EmailNotSelfVerified); }
      HoldersExactly(history);
      OneGovernor(history, account);
      if marker.Some? {
        return if Active(rows, Key(account, c)) then AlreadyBootstrapped else Refused(FirstGrantAlreadyClaimed);
      }
      if |Holders(rows, c)| > 0 { return Refused(CapabilityAlreadyHeld); }
      WriteChange(Act(Key(account, c), GRANT, FirstGrant, at));
      return Done;
    }

    /** The actor governs and the target is an active account, both as stored now. */
    method CheckGoverned(actor: AccountId, account: AccountId) returns (refusal: Option<Refusal>)
      ensures refusal.None? <==>
                ActiveAccount(accounts, actor) && Active(rows, Key(actor, GOVERN)) && ActiveAccount(accounts, account)
      ensures refusal == Some(ActorNotAuthorized) <==>
                !(ActiveAccount(accounts, actor) && Active(rows, Key(actor, GOVERN)))
      ensures refusal == Some(AccountNotFound) ==> account !in accounts
      ensures refusal == Some(AccountDisabled) ==> account in accounts && accounts[account].status == DISABLED
      ensures refusal in {None, Some(ActorNotAuthorized), Some(AccountNotFound), Some(AccountDisabled)}
    {
      AllowedExactly(accounts, rows, actor, GOVERN);
      if !Evaluate(GOVERN, Resolve(accounts, rows, actor)).Allow? { return Some(ActorNotAuthorized); }
      if account !in accounts { return Some(AccountNotFound); }
      if accounts[account].status != ACTIVE { return Some(AccountDisabled); }
      return None;
    }

    method Grant(actor: AccountId, account: AccountId, c: Capability, at: Instant) returns (r: Reply)
      requires Valid()
      modifies this
      ensures Valid() && !r.AlreadyBootstrapped?
      ensures r.Done? <==> Lawful(old(history), Acted(Act(Key(account, c), GRANT, Governor(actor), at)))
      ensures r.Done? <==>
                && Governed(c) && ActiveAccount(accounts, account) && !Active(old(rows), Key(account, c))
                && ActiveAccount(accounts, actor) && Active(old(rows), Key(actor, GOVERN))
      ensures history == if r.Done? then old(history) + [Acted(Act(Key(account, c), GRANT, Governor(actor), at))]
                else old(history)
      ensures r.Refused? ==> GovernedRefusal(old(history), actor, Key(account, c), GRANT, r.why)
    {
      if !Governed(c) { return Refused(CapabilityNotGovernable); }
      var refusal := CheckGoverned(actor, account);
      if refusal.Some? { return Refused(refusal.value); }
      if Active(rows, Key(account, c)) { return Refused(EntitlementAlreadyActive); }
      WriteChange(Act(Key(account, c), GRANT, Governor(actor), at));
      return Done;
    }

    /** Asking to take `entitlement:govern` from anyone is always refused, and from its holder as the last governor:
        the answer that there is another one is never given. */
    method Revoke(actor: AccountId, account: AccountId, c: Capability, at: Instant) returns (r: Reply)
      requires Valid()
      modifies this
      ensures Valid() && !r.AlreadyBootstrapped?
      ensures r.Done? <==> Lawful(old(history), Acted(Act(Key(account, c), REVOKE, Governor(actor), at)))
      ensures r.Done? <==>
                && Governed(c) && ActiveAccount(accounts, account) && Active(old(rows), Key(account, c))
                && ActiveAccount(accounts, actor) && Active(old(rows), Key(actor, GOVERN))
      ensures history == if r.Done? then old(history) + [Acted(Act(Key(account, c), REVOKE, Governor(actor), at))]
                else old(history)
      ensures r.Refused? ==> GovernedRefusal(old(history), actor, Key(account, c), REVOKE, r.why)
      ensures c == GOVERN ==> r.Refused?
    {
      if c != GOVERN && !Governed(c) { return Refused(CapabilityNotGovernable); }
      var refusal := CheckGoverned(actor, account);
      if refusal.Some? { return Refused(refusal.value); }
      if !Active(rows, Key(account, c)) { return Refused(EntitlementNotActive); }
      if c == GOVERN {
        HoldersExactly(history);
        OneGovernor(history, account);
        return if |Holders(rows, GOVERN)| <= 1 then Refused(LastEntitlementGovernor)
            else Refused(CapabilityNotGovernable);
      }
      WriteChange(Act(Key(account, c), REVOKE, Governor(actor), at));
      return Done;
    }
  }

  /** With the governor's account disabled, every governed act is refused until it is enabled again. */
  lemma DisabledGovernorFreezes(h: seq<Event>, a: Act)
    requires LawfulLog(h) && FirstGranted(h).Some? && !ActiveAccount(Accounts(h), FirstGranted(h).value)
    ensures !Lawful(h, Acted(a))
  {
    match a.basis
    case FirstGrant =>
    case Governor(actor) => OneGovernor(h, actor);
  }

  /** Every lawful log is reached by the three acts and account changes, so the law is exactly what runs produce. */
  method Reproduce(h: seq<Event>) returns (g: Registry)
    requires LawfulLog(h)
    ensures fresh(g) && g.Valid() && g.history == h
  {
    g := new Registry();
    for i := 0 to |h|
      invariant fresh(g) && g.Valid() && g.history == h[..i]
    {
      PrefixLawful(h, i + 1);
      assert h[..i + 1][..i] == h[..i] && h[..i + 1] == h[..i] + [h[i]];
      match h[i] {
        case AccountSet(id, account) => g.SetAccount(id, account);
        case Acted(a) =>
          var r: Reply;
          match a.basis {
            case FirstGrant => r := g.BootstrapFirst(a.key.account, a.key.capability, a.at);
            case Governor(actor) =>
              if a.action.GRANT? {
                r := g.Grant(actor, a.key.account, a.key.capability, a.at);
              } else {
                r := g.Revoke(actor, a.key.account, a.key.capability, a.at);
              }
          }
      }
    }
    assert h[..|h|] == h;
  }
}
