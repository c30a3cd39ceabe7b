/**
 The account store of the wallet (services/wallet-api/src/db.ts): users, their receiving addresses and
 payment requests. Tables are sequences of rows in insertion order (requests are keyed by their random id),
 every prepared statement is one query or update, and every exported function is one transaction.
 A user's id is its position in the user table.
 */
module WalletStore {
  import opened Wrappers

  datatype User = User(tgUserId: string, username: Option<string>)

  datatype AddressRow = AddressRow(userId: nat, address: string, caption: Option<string>, isDefault: bool)

  datatype Status = Pending | Claimed | Expired

  /** What a payment request asks for. */
  datatype Demand = Demand(toUsername: string, amountSats: int, memo: string)

  datatype Request = Request(
    fromUser: nat,
    toTgUserId: string,
    toUsername: Option<string>,
    amountSats: Option<int>,
    memo: Option<string>,
    status: Status,
    claimedAddress: Option<string>,
    expiresAt: int)

  datatype Store = Store(users: seq<User>, addresses: seq<AddressRow>, requests: map<string, Request>)

  const EMPTY := Store([], [], map[])

  /** The first row that satisfies p, as `get` returns it. */
  function FirstWhere<T>(rows: seq<T>, p: T -> bool): (r: Option<nat>)
    ensures r.Some? ==> r.value < |rows| && p(rows[r.value]) && forall j :: 0 <= j < r.value ==> !p(rows[j])
    ensures r.None? ==> forall j :: 0 <= j < |rows| ==> !p(rows[j])
  {
    if rows == [] then None
    else if p(rows[0]) then Some(0)
    else
      var r := FirstWhere(rows[1..], p);
      assert forall j :: 0 < j < |rows| ==> rows[j] == rows[1..][j - 1];
      if r.Some? then Some(r.value + 1) else None
  }

  function FindUser(users: seq<User>, tgUserId: string): Option<nat> {
    FirstWhere(users, (u: User) => u.tgUserId == tgUserId)
  }

  function FindUsername(users: seq<User>, username: string): Option<nat> {
    FirstWhere(users, (u: User) => u.username == Some(username))
  }

  function FindAddress(rows: seq<AddressRow>, address: string): Option<nat> {
    FirstWhere(rows, (a: AddressRow) => a.address == address)
  }

  function FindDefault(rows: seq<AddressRow>, userId: nat): Option<nat> {
    FirstWhere(rows, (a: AddressRow) => a.userId == userId && a.isDefault)
  }

  function DefaultOf(rows: seq<AddressRow>, userId: nat): Option<string> {
    var at := FindDefault(rows, userId);
    if at.Some? then Some(rows[at.value].address) else None
  }

  // ---------- Updates ----------

  function Upserted(users: seq<User>, tgUserId: string, username: Option<string>): seq<User> {
    var at := FindUser(users, tgUserId);
    if at.Some? then users[at.value := User(tgUserId, username)] else users + [User(tgUserId, username)]
  }

  function UserId(users: seq<User>, tgUserId: string): nat {
    var at := FindUser(users, tgUserId);
    if at.Some? then at.value else |users|
  }

  function ClearDefaults(rows: seq<AddressRow>, userId: nat): (r: seq<AddressRow>)
    ensures |r| == |rows|
    ensures forall i :: 0 <= i < |rows| ==> r[i] == if rows[i].userId == userId then rows[i].(isDefault := false) else rows[i]
  {
    seq(|rows|, i requires 0 <= i < |rows| => if rows[i].userId == userId then rows[i].(isDefault := false) else rows[i])
  }

  /** An empty label counts as none. */
  function CaptionOr(caption: Option<string>, other: Option<string>): Option<string> {
    if caption.Some? && caption.value != "" then caption else other
  }

  function WithDefault(rows: seq<AddressRow>, userId: nat, address: string, caption: Option<string>): seq<AddressRow> {
    var cleared := ClearDefaults(rows, userId);
    var at := FindAddress(cleared, address);
    if at.Some? then cleared[at.value := AddressRow(userId, address, CaptionOr(caption, cleared[at.value].caption), true)]
    else cleared + [AddressRow(userId, address, CaptionOr(caption, None), true)]
  }

  function SetDefault(s: Store, tgUserId: string, address: string, caption: Option<string>): Store {
    s.(users := Upserted(s.users, tgUserId, None),
       addresses := WithDefault(s.addresses, UserId(s.users, tgUserId), address, caption))
  }

  datatype ClaimError = NotFound | Unauthorized | Already(status: Status) | HasExpired

  /** Why a claim is turned down, if it is. */
  function ClaimFailure(s: Store, id: string, tgUserId: string, now: int): Option<ClaimError> {
    if id !in s.requests then Some(NotFound)
    else if s.requests[id].toTgUserId != tgUserId then Some(Unauthorized)
    else if !s.requests[id].status.Pending? then Some(Already(s.requests[id].status))
    else if s.requests[id].expiresAt < now then Some(HasExpired)
    else None
  }

  datatype Op =
    | Upsert(tgUserId: string, username: Option<string>)
    | SetAddress(tgUserId: string, address: string, caption: Option<string>)
    | Create(id: string, fromTgUserId: string, toTgUserId: string, demand: Demand, expiresAt: int)
    | Claim(id: string, tgUserId: string, address: string, now: int)
    | Read(id: string, now: int)

  /** Ids of new requests are random, and not in use. */
  predicate Enabled(s: Store, op: Op) {
    op.Create? ==> op.id !in s.requests
  }

  function TextOr(text: string): Option<string> {
    if text == "" then None else Some(text)
  }

  /** A request as it is inserted; empty texts and a zero amount are stored as missing. */
  function NewRequest(fromUser: nat, to: string, demand: Demand, expiresAt: int): Request {
    Request(fromUser, to, TextOr(demand.toUsername), if demand.amountSats == 0 then None else Some(demand.amountSats),
            TextOr(demand.memo), Pending, None, expiresAt)
  }

  function Expire(s: Store, id: string): Store
    requires id in s.requests
  {
    s.(requests := s.requests[id := s.requests[id].(status := Expired)])
  }

  function After(s: Store, op: Op): Store {
    match op
    case Upsert(tg, username) => s.(users := Upserted(s.users, tg, username))
    case SetAddress(tg, address, caption) => SetDefault(s, tg, address, caption)
    case Create(id, sender, to, demand, expiresAt) =>
      s.(users := Upserted(s.users, sender, None),
         requests := s.requests[id := NewRequest(UserId(s.users, sender), to, demand, expiresAt)])
    case Claim(id, tg, address, now) =>
      var failure := ClaimFailure(s, id, tg, now);
      if failure == Some(HasExpired) then Expire(s, id)
      else if failure.Some? then s
      else
        var claimed := s.requests[id].(status := Claimed, claimedAddress := Some(address));
        SetDefault(s.(requests := s.requests[id := claimed]), tg, address, None)
    case Read(id, now) =>
      if id in s.requests && s.requests[id].status.Pending? && s.requests[id].expiresAt < now then Expire(s, id) else s
  }

  // ---------- Invariants ----------

  /** No two rows of a kind, at most one default per user, and a claimed address exactly on claimed requests. */
  predicate Inv(s: Store) {
    && (forall i, j :: 0 <= i < j < |s.users| ==> s.users[i].tgUserId != s.users[j].tgUserId)
    && (forall i, j :: 0 <= i < j < |s.addresses| ==> s.addresses[i].address != s.addresses[j].address)
    && (forall i :: 0 <= i < |s.addresses| ==> s.addresses[i].userId < |s.users|)
    && OneDefault(s.addresses)
    && (forall id :: id in s.requests ==> (s.requests[id].claimedAddress.Some? <==> s.requests[id].status.Claimed?))
  }

  predicate OneDefault(rows: seq<AddressRow>) {
    forall i, j :: 0 <= i < j < |rows| && rows[i].isDefault && rows[j].isDefault ==> rows[i].userId != rows[j].userId
  }

  lemma WithDefaultKeeps(rows: seq<AddressRow>, userId: nat, address: string, caption: Option<string>)
    requires OneDefault(rows) && forall i, j :: 0 <= i < j < |rows| ==> rows[i].address != rows[j].address
    ensures OneDefault(WithDefault(rows, userId, address, caption))
    ensures var r := WithDefault(rows, userId, address, caption);
            forall i, j :: 0 <= i < j < |r| ==> r[i].address != r[j].address
  {
    hide CaptionOr;
    var r, cleared := WithDefault(rows, userId, address, caption), ClearDefaults(rows, userId);
    var found := FindAddress(cleared, address);
    var k := if found.Some? then found.value else |rows|;
    assert r[k].address == address && |r| == if found.Some? then |rows| else |rows| + 1;
    assert forall j :: 0 <= j < |r| && j != k ==> r[j] == cleared[j] && r[j].address != address;
    assert forall j :: 0 <= j < |cleared| && cleared[j].isDefault ==> cleared[j].userId != userId && cleared[j] == rows[j];
  }

  lemma DefaultIs(rows: seq<AddressRow>, userId: nat, i: nat)
    requires OneDefault(rows) && i < |rows| && rows[i].userId == userId && rows[i].isDefault
    ensures FindDefault(rows, userId) == Some(i)
  {
  }

  /** Setting a default gives it to the user, takes it from whoever had it, and leaves all other users alone. */
  lemma WithDefaultResolves(rows: seq<AddressRow>, userId: nat, address: string, caption: Option<string>, other: nat)
    requires OneDefault(rows) && forall i, j :: 0 <= i < j < |rows| ==> rows[i].address != rows[j].address
    ensures DefaultOf(WithDefault(rows, userId, address, caption), other)
            == if other == userId then Some(address) else if DefaultOf(rows, other) == Some(address) then None else DefaultOf(rows, other)
  {
    var r := WithDefault(rows, userId, address, caption);
    var found := FindAddress(ClearDefaults(rows, userId), address);
    var k := if found.Some? then found.value else |rows|;
    WithDefaultKeeps(rows, userId, address, caption);
    assert forall j :: 0 <= j < |rows| && j != k && rows[j].userId != userId ==> r[j] == rows[j];
    assert r[k].userId == userId && r[k].isDefault && r[k].address == address;
    if other == userId {
      DefaultIs(r, userId, k);
    } else {
      var i := FindDefault(rows, other);
      if i.Some? && rows[i.value].address != address {
        DefaultIs(r, other, i.value);
      }
    }
  }

  /** The address gets the new label, or keeps its own when none is given; all other labels stay. */
  lemma LabelsKept(rows: seq<AddressRow>, userId: nat, address: string, caption: Option<string>, i: nat)
    requires i < |WithDefault(rows, userId, address, caption)|
    requires forall i, j :: 0 <= i < j < |rows| ==> rows[i].address != rows[j].address
    ensures var row := WithDefault(rows, userId, address, caption)[i];
            var own := if i < |rows| then rows[i].caption else None;
            && (i < |rows| ==> row.address == rows[i].address)
            && row.caption == if row.address == address && caption.Some? && caption.value != "" then caption else own
  {
  }

  // ---------- Steps and runs ----------

  lemma UpsertedKeeps(users: seq<User>, tgUserId: string, username: Option<string>)
    requires forall i, j :: 0 <= i < j < |users| ==> users[i].tgUserId != users[j].tgUserId
    ensures var r := Upserted(users, tgUserId, username);
            && |users| <= |r| && UserId(users, tgUserId) < |r|
            && (forall i, j :: 0 <= i < j < |r| ==> r[i].tgUserId != r[j].tgUserId)
            && (forall i :: 0 <= i < |users| ==> r[i].tgUserId == users[i].tgUserId)
            && r[UserId(users, tgUserId)] == User(tgUserId, username)
            && (forall i :: 0 <= i < |r| && i != UserId(users, tgUserId) ==> i < |users| && r[i] == users[i])
  {
  }

  lemma SetDefaultKeeps(s: Store, tgUserId: string, address: string, caption: Option<string>)
    requires Inv(s)
    ensures Inv(SetDefault(s, tgUserId, address, caption))
  {
    UpsertedKeeps(s.users, tgUserId, None);
    WithDefaultKeeps(s.addresses, UserId(s.users, tgUserId), address, caption);
    hide Upserted, UserId, OneDefault, FindAddress;
  }

  lemma StepKeeps(s: Store, op: Op)
    requires Inv(s) && Enabled(s, op)
    ensures Inv(After(s, op))
  {
    hide Upserted, WithDefault, OneDefault;
    match op {
      case Upsert(tg, username) => UpsertedKeeps(s.users, tg, username);
      case SetAddress(tg, address, caption) => SetDefaultKeeps(s, tg, address, caption);
      case Create(_, sender, _, _, _) => UpsertedKeeps(s.users, sender, None);
      case Claim(id, tg, address, now) =>
        if ClaimFailure(s, id, tg, now).None? {
          var claimed := s.requests[id].(status := Claimed, claimedAddress := Some(address));
          SetDefaultKeeps(s.(requests := s.requests[id := claimed]), tg, address, None);
        }
      case Read(_, _) =>
    }
  }

  predicate Possible(s: Store, ops: seq<Op>)
    decreases |ops|
  {
    ops == [] || (Enabled(s, ops[0]) && Possible(After(s, ops[0]), ops[1..]))
  }

  function Run(s: Store, ops: seq<Op>): Store
    decreases |ops|
  {
    if ops == [] then s else Run(After(s, ops[0]), ops[1..])
  }

  /** Over all runs: one owner per address, at most one default per user, and claimed addresses on claimed requests only. */
  lemma {:induction false} RunKeeps(s: Store, ops: seq<Op>)
    requires Inv(s) && Possible(s, ops)
    ensures Inv(Run(s, ops))
    decreases |ops|
  {
    hide Inv, After;
    if ops != [] {
      StepKeeps(s, ops[0]);
      RunKeeps(After(s, ops[0]), ops[1..]);
    }
  }

  // ---------- Payment requests ----------

  /** A request stays as it is, or goes from pending to expired, or from pending to claimed with an address. */
  predicate Moves(before: Request, after: Request) {
    || after == before
    || (before.status.Pending? && after == before.(status := Expired))
    || (before.status.Pending? && after.claimedAddress.Some? && after == before.(status := Claimed, claimedAddress := after.claimedAddress))
  }

  lemma StepMoves(s: Store, op: Op, id: string)
    requires Enabled(s, op) && id in s.requests
    ensures id in After(s, op).requests && Moves(s.requests[id], After(s, op).requests[id])
  {
  }

  /** Over all runs a request is only ever settled once, and then keeps its outcome. */
  lemma {:induction false} RunMoves(s: Store, ops: seq<Op>, id: string)
    requires Possible(s, ops) && id in s.requests
    ensures id in Run(s, ops).requests && Moves(s.requests[id], Run(s, ops).requests[id])
    decreases |ops|
  {
    hide After;
    if ops != [] {
      StepMoves(s, ops[0], id);
      RunMoves(After(s, ops[0]), ops[1..], id);
    }
  }

  /** What settles a pending request: a claim by the one it is for, or a reading after its expiry. */
  predicate Settles(op: Op, id: string, to: string, expiresAt: int) {
    || (op.Claim? && op.id == id && op.tgUserId == to)
    || (op.Read? && op.id == id && expiresAt < op.now)
  }

  /** Operation i is the first one that settles the request. */
  predicate SettledAt(ops: seq<Op>, i: int, id: string, to: string, expiresAt: int) {
    0 <= i < |ops| && Settles(ops[i], id, to, expiresAt) && forall j :: 0 <= j < i ==> !Settles(ops[j], id, to, expiresAt)
  }

  lemma StepSettles(s: Store, op: Op, id: string)
    requires Enabled(s, op) && id in s.requests && s.requests[id].status.Pending?
    ensures var req := s.requests[id];
            && id in After(s, op).requests
            && After(s, op).requests[id]
               == if !Settles(op, id, req.toTgUserId, req.expiresAt) then req
                  else if op.Claim? && op.now <= req.expiresAt then req.(status := Claimed, claimedAddress := Some(op.address))
                  else req.(status := Expired)
  {
  }

  /** A pending request is decided by the first operation that settles it, and stays pending without one. */
  lemma {:induction false} Fate(s: Store, ops: seq<Op>, id: string, i: int)
    requires Possible(s, ops) && id in s.requests && s.requests[id].status.Pending?
    ensures id in Run(s, ops).requests
    ensures var req := s.requests[id];
            SettledAt(ops, i, id, req.toTgUserId, req.expiresAt) ==>
              Run(s, ops).requests[id]
              == if ops[i].Claim? && ops[i].now <= req.expiresAt then req.(status := Claimed, claimedAddress := Some(ops[i].address))
                 else req.(status := Expired)
    ensures var req := s.requests[id];
            (forall j :: 0 <= j < |ops| ==> !Settles(ops[j], id, req.toTgUserId, req.expiresAt)) ==> Run(s, ops).requests[id] == req
    decreases |ops|
  {
    hide After, Enabled, Settles;
    if ops != [] {
      var next := After(s, ops[0]);
      StepSettles(s, ops[0], id);
      RunMoves(next, ops[1..], id);
      if next.requests[id].status.Pending? {
        Fate(next, ops[1..], id, i - 1);
      }
    }
  }

  lemma FirstSettling(ops: seq<Op>, id: string, to: string, expiresAt: int) returns (i: int)
    ensures SettledAt(ops, i, id, to, expiresAt) || forall j :: 0 <= j < |ops| ==> !Settles(ops[j], id, to, expiresAt)
  {
    i := 0;
    while i < |ops| && !Settles(ops[i], id, to, expiresAt)
      invariant 0 <= i <= |ops| && forall j :: 0 <= j < i ==> !Settles(ops[j], id, to, expiresAt)
    {
      i := i + 1;
    }
  }

  /** Operation i is a claim with this address by the user the request is for, in time and before anything settled it. */
  predicate ClaimsFirst(ops: seq<Op>, i: int, id: string, to: string, expiresAt: int, address: string) {
    && 0 <= i < |ops| && ops[i].Claim? && ops[i].id == id && ops[i].tgUserId == to && ops[i].address == address && ops[i].now <= expiresAt
    && forall j :: 0 <= j < i ==> !Settles(ops[j], id, to, expiresAt)
  }

  ghost predicate ClaimedInTime(ops: seq<Op>, id: string, to: string, expiresAt: int, address: string) {
    exists i :: ClaimsFirst(ops, i, id, to, expiresAt, address)
  }

  lemma PendingClaimedIff(s: Store, ops: seq<Op>, id: string, address: string)
    requires Possible(s, ops) && id in s.requests && s.requests[id].status.Pending? && s.requests[id].claimedAddress.None?
    ensures id in Run(s, ops).requests
    ensures Run(s, ops).requests[id].claimedAddress == Some(address) <==>
            ClaimedInTime(ops, id, s.requests[id].toTgUserId, s.requests[id].expiresAt, address)
  {
    hide Run, Possible;
    var req := s.requests[id];
    var first := FirstSettling(ops, id, req.toTgUserId, req.expiresAt);
    Fate(s, ops, id, first);
    if i :| ClaimsFirst(ops, i, id, req.toTgUserId, req.expiresAt, address) {
      assert Settles(ops[i], id, req.toTgUserId, req.expiresAt);
    }
    if SettledAt(ops, first, id, req.toTgUserId, req.expiresAt) && ops[first].Claim? && ops[first].now <= req.expiresAt {
      assert ClaimsFirst(ops, first, id, req.toTgUserId, req.expiresAt, ops[first].address);
    }
  }

  predicate Creates(ops: seq<Op>, c: nat, id: string) {
    c < |ops| && ops[c].Create? && ops[c].id == id
  }

  /**
   Over all runs: a request that was created ends up claimed with an address exactly when the user it is for claimed it
   with that address, not after its expiry, and before anything else settled it. It asks for what it was created with.
   */
  lemma {:induction false} EveryRunClaims(s: Store, ops: seq<Op>, c: nat, id: string, address: string)
    requires Inv(s) && Possible(s, ops) && Creates(ops, c, id)
    ensures Inv(Run(s, ops)) && id in Run(s, ops).requests
    ensures var t := Run(s, ops);
            var req := t.requests[id];
            && req.toTgUserId == ops[c].toTgUserId && req.expiresAt == ops[c].expiresAt && Asks(req, ops[c].demand)
            && req.fromUser < |t.users| && t.users[req.fromUser].tgUserId == ops[c].fromTgUserId
            && (req.status.Claimed? && req.claimedAddress == Some(address) <==>
                ClaimedInTime(ops[c + 1..], id, ops[c].toTgUserId, ops[c].expiresAt, address))
    decreases |ops|
  {
    RunKeeps(s, ops);
    hide After, Inv, Settles, Asks, ClaimedInTime;
    var next, rest := After(s, ops[0]), ops[1..];
    StepKeeps(s, ops[0]);
    assert ops[c + 1..] == rest[c..];
    if c == 0 {
      CreatedPending(s, ops[0]);
      RunMoves(next, rest, id);
      RunUsers(next, rest, next.requests[id].fromUser);
      PendingClaimedIff(next, rest, id, address);
      ClaimedStatus(Run(next, rest), id);
      assert rest[0..] == rest;
    } else {
      EveryRunClaims(next, rest, c - 1, id, address);
    }
  }

  predicate Asks(req: Request, demand: Demand) {
    && (req.amountSats.Some? <==> demand.amountSats != 0) && (req.amountSats.Some? ==> req.amountSats.value == demand.amountSats)
    && (req.toUsername.Some? <==> demand.toUsername != "") && (req.toUsername.Some? ==> req.toUsername.value == demand.toUsername)
    && (req.memo.Some? <==> demand.memo != "") && (req.memo.Some? ==> req.memo.value == demand.memo)
  }

  lemma CreatedPending(s: Store, op: Op)
    requires Inv(s) && op.Create?
    ensures op.id in After(s, op).requests
    ensures var req := After(s, op).requests[op.id];
            && req.status.Pending? && req.claimedAddress.None? && Asks(req, op.demand)
            && req.toTgUserId == op.toTgUserId && req.expiresAt == op.expiresAt
            && req.fromUser < |After(s, op).users| && After(s, op).users[req.fromUser].tgUserId == op.fromTgUserId
  {
    UpsertedKeeps(s.users, op.fromTgUserId, None);
    hide Upserted, UserId;
  }

  lemma ClaimedStatus(s: Store, id: string)
    requires Inv(s) && id in s.requests
    ensures s.requests[id].claimedAddress.Some? <==> s.requests[id].status.Claimed?
  {
  }

  lemma StepUsers(s: Store, op: Op, i: nat)
    requires Inv(s) && i < |s.users|
    ensures i < |After(s, op).users| && After(s, op).users[i].tgUserId == s.users[i].tgUserId
  {
  }

  lemma {:induction false} RunUsers(s: Store, ops: seq<Op>, i: nat)
    requires Inv(s) && Possible(s, ops) && i < |s.users|
    ensures i < |Run(s, ops).users| && Run(s, ops).users[i].tgUserId == s.users[i].tgUserId
    decreases |ops|
  {
    hide After, Inv;
    if ops != [] {
      StepKeeps(s, ops[0]);
      StepUsers(s, ops[0], i);
      RunUsers(After(s, ops[0]), ops[1..], i);
    }
  }

  // ---------- Resolving ----------

  /** What matters for resolving: users that were seen, and addresses that were set. */
  datatype Event = Seen(tgUserId: string, username: Option<string>) | Set(tgUserId: string, address: string)

  function EventsOf(s: Store, op: Op): seq<Event> {
    match op
    case Upsert(tg, username) => [Seen(tg, username)]
    case SetAddress(tg, address, _) => [Set(tg, address)]
    case Create(_, sender, _, _, _) => [Seen(sender, None)]
    case Claim(id, tg, address, now) => if ClaimFailure(s, id, tg, now).None? then [Set(tg, address)] else []
    case Read(_, _) => []
  }

  function Events(s: Store, ops: seq<Op>): seq<Event>
    decreases |ops|
  {
    if ops == [] then [] else EventsOf(s, ops[0]) + Events(After(s, ops[0]), ops[1..])
  }

  predicate Known(events: seq<Event>, tgUserId: string) {
    exists i :: 0 <= i < |events| && events[i].tgUserId == tgUserId
  }

  /** The last address the user set, unless another user has set the same one since. */
  function LastSet(events: seq<Event>, tgUserId: string): Option<string> {
    if events == [] then None
    else
      var front, last := events[..|events| - 1], events[|events| - 1];
      if last.Seen? then LastSet(front, tgUserId)
      else if last.tgUserId == tgUserId then Some(last.address)
      else if LastSet(front, tgUserId) == Some(last.address) then None
      else LastSet(front, tgUserId)
  }

  datatype Resolved = UserNotFound | NoDefaultAddress | ResolvedTo(address: string)

  function ResolveRow(s: Store, at: Option<nat>): Resolved {
    if at.None? then UserNotFound
    else match DefaultOf(s.addresses, at.value)
      case None => NoDefaultAddress
      case Some(address) => if address == "" then NoDefaultAddress else ResolvedTo(address)
  }

  /** Missing parameters are empty texts, which the code treats alike. */
  function Resolve(s: Store, toTgUserId: string, username: string): Resolved {
    if toTgUserId != "" then ResolveRow(s, FindUser(s.users, toTgUserId))
    else if username != "" then ResolveRow(s, FindUsername(s.users, if username[0] == '@' then username[1..] else username))
    else UserNotFound
  }

  /** The tables agree with the events about a user. */
  predicate Agrees(s: Store, events: seq<Event>, tgUserId: string) {
    var at := FindUser(s.users, tgUserId);
    && (at.Some? <==> Known(events, tgUserId))
    && LastSet(events, tgUserId) == if at.Some? then DefaultOf(s.addresses, at.value) else None
  }

  lemma SetDefaultAgrees(s: Store, events: seq<Event>, tg: string, address: string, caption: Option<string>, who: string)
    requires Inv(s) && Agrees(s, events, who)
    ensures Agrees(SetDefault(s, tg, address, caption), events + [Set(tg, address)], who)
  {
    var t, all := SetDefault(s, tg, address, caption), events + [Set(tg, address)];
    assert all[..|events|] == events && all[|events|] == Set(tg, address);
    FoundAfter(s.users, tg, None, who);
    KnownAppend(events, Set(tg, address), who);
    WithDefaultResolves(s.addresses, UserId(s.users, tg), address, caption, UserId(s.users, who));
    hide Upserted, WithDefault, Known, FirstWhere, FindDefault;
    if FindUser(s.users, who).None? && who != tg {
      assert LastSet(all, who) == None;
    }
  }

  lemma KnownAppend(events: seq<Event>, e: Event, who: string)
    ensures Known(events + [e], who) <==> Known(events, who) || e.tgUserId == who
  {
    var all := events + [e];
    assert all[|events|] == e;
    if Known(events, who) {
      var i :| 0 <= i < |events| && events[i].tgUserId == who;
      assert all[i].tgUserId == who;
    }
  }

  lemma FoundAfter(users: seq<User>, tg: string, username: Option<string>, who: string)
    requires forall i, j :: 0 <= i < j < |users| ==> users[i].tgUserId != users[j].tgUserId
    ensures FindUser(Upserted(users, tg, username), who) == if who == tg then Some(UserId(users, tg)) else FindUser(users, who)
  {
    hide Upserted, FirstWhere;
    UpsertedKeeps(users, tg, username);
    var r := Upserted(users, tg, username);
    assert r[UserId(users, tg)].tgUserId == tg;
  }

  lemma SeenAgrees(s: Store, events: seq<Event>, tg: string, username: Option<string>, who: string)
    requires Inv(s) && Agrees(s, events, who)
    ensures Agrees(s.(users := Upserted(s.users, tg, username)), events + [Seen(tg, username)], who)
  {
    var all := events + [Seen(tg, username)];
    assert all[..|events|] == events && all[|events|] == Seen(tg, username);
    FoundAfter(s.users, tg, username, who);
    KnownAppend(events, Seen(tg, username), who);
    if who == tg && FindUser(s.users, tg).None? {
      NoAddresses(s.addresses, |s.users|);
    }
    hide Upserted, Known, FirstWhere, FindDefault;
  }

  lemma NoAddresses(rows: seq<AddressRow>, userId: nat)
    requires forall i :: 0 <= i < |rows| ==> rows[i].userId < userId
    ensures DefaultOf(rows, userId) == None
  {
  }

  lemma StepAgrees(s: Store, events: seq<Event>, op: Op, who: string)
    requires Inv(s) && Enabled(s, op) && Agrees(s, events, who)
    ensures Agrees(After(s, op), events + EventsOf(s, op), who)
  {
    hide Upserted, WithDefault, FirstWhere, FindDefault, Known, LastSet, Inv, UserId;
    assert events + [] == events;
    match op {
      case Upsert(tg, username) => SeenAgrees(s, events, tg, username, who);
      case SetAddress(tg, address, caption) => SetDefaultAgrees(s, events, tg, address, caption, who);
      case Create(_, sender, _, _, _) => SeenAgrees(s, events, sender, None, who);
      case Claim(id, tg, address, now) =>
        if ClaimFailure(s, id, tg, now).None? {
          var claimed := s.requests[id].(status := Claimed, claimedAddress := Some(address));
          var t := s.(requests := s.requests[id := claimed]);
          assert Inv(t) by {
            ClaimedInv(s, id, address);
          }
          SetDefaultAgrees(t, events, tg, address, None, who);
        }
      case Read(_, _) =>
    }
  }

  lemma ClaimedInv(s: Store, id: string, address: string)
    requires Inv(s) && id in s.requests
    ensures Inv(s.(requests := s.requests[id := s.requests[id].(status := Claimed, claimedAddress := Some(address))]))
  {
  }

  lemma {:induction false} RunAgrees(s: Store, events: seq<Event>, ops: seq<Op>, who: string)
    requires Inv(s) && Possible(s, ops) && Agrees(s, events, who)
    ensures Agrees(Run(s, ops), events + Events(s, ops), who)
    decreases |ops|
  {
    hide Inv, After, Agrees, EventsOf;
    if ops == [] {
      assert events + [] == events;
    } else {
      StepKeeps(s, ops[0]);
      StepAgrees(s, events, ops[0], who);
      RunAgrees(After(s, ops[0]), events + EventsOf(s, ops[0]), ops[1..], who);
      assert events + EventsOf(s, ops[0]) + Events(After(s, ops[0]), ops[1..]) == events + Events(s, ops);
    }
  }

  /** Over all runs, resolving a user gives the last address they set, unless another user took it since. */
  lemma EveryRunResolves(ops: seq<Op>, tgUserId: string, username: string)
    requires Possible(EMPTY, ops) && tgUserId != ""
    ensures var events := Events(EMPTY, ops);
            Resolve(Run(EMPTY, ops), tgUserId, username)
            == if !Known(events, tgUserId) then UserNotFound
               else if LastSet(events, tgUserId).None? || LastSet(events, tgUserId) == Some("") then NoDefaultAddress
               else ResolvedTo(LastSet(events, tgUserId).value)
  {
    RunAgrees(EMPTY, [], ops, tgUserId);
    assert [] + Events(EMPTY, ops) == Events(EMPTY, ops);
    hide FirstWhere, Known, LastSet, Run, Events;
  }

  /**
   Setting an address forgets the user's name: the name then resolves to another user that carries it, and to
   nobody exactly when there is none.
   */
  lemma UsernameForgotten(s: Store, tgUserId: string, address: string, caption: Option<string>, username: string)
    requires Inv(s) && username != "" && username[0] != '@'
    ensures var t := SetDefault(s, tgUserId, address, caption);
            && (Resolve(t, "", username) == UserNotFound <==>
                forall i :: 0 <= i < |s.users| && s.users[i].username == Some(username) ==> s.users[i].tgUserId == tgUserId)
            && (FindUsername(t.users, username).Some? ==> t.users[FindUsername(t.users, username).value].tgUserId != tgUserId)
  {
    UpsertedKeeps(s.users, tgUserId, None);
    var t := SetDefault(s, tgUserId, address, caption);
    hide Upserted, UserId, WithDefault;
    forall i | 0 <= i < |s.users|
      ensures t.users[i].username == Some(username) <==> s.users[i].username == Some(username) && s.users[i].tgUserId != tgUserId
    {
    }
  }

  // ---------- Names over whole runs ----------

  /** The last event about the user is an upsert with this name: no address, claim or request of theirs since. */
  predicate Carries(events: seq<Event>, tgUserId: string, username: string) {
    exists i :: 0 <= i < |events| && events[i] == Seen(tgUserId, Some(username)) && SilentSince(events, i, tgUserId)
  }

  ghost predicate SomeoneCarries(events: seq<Event>, username: string) {
    exists tg :: Carries(events, tg, username)
  }

  predicate SilentSince(events: seq<Event>, i: nat, tgUserId: string) {
    forall j :: i < j < |events| ==> events[j].tgUserId != tgUserId
  }

  function NameIn(e: Event): Option<string> {
    if e.Seen? then e.username else None
  }

  /** The name that the last event about the user leaves. */
  function LastName(events: seq<Event>, tgUserId: string): Option<string> {
    if events == [] then None
    else
      var last := events[|events| - 1];
      if last.tgUserId == tgUserId then NameIn(last) else LastName(events[..|events| - 1], tgUserId)
  }

  lemma {:induction false} LastNameIs(events: seq<Event>, tgUserId: string, username: string)
    ensures LastName(events, tgUserId) == Some(username) <==> Carries(events, tgUserId, username)
  {
    if events != [] {
      var front, last := events[..|events| - 1], |events| - 1;
      LastNameIs(front, tgUserId, username);
      if events[last].tgUserId == tgUserId {
        assert SilentSince(events, last, tgUserId);
      } else {
        if Carries(front, tgUserId, username) {
          var i :| 0 <= i < |front| && front[i] == Seen(tgUserId, Some(username)) && SilentSince(front, i, tgUserId);
          assert events[i] == front[i] && SilentSince(events, i, tgUserId);
        }
        if Carries(events, tgUserId, username) {
          var i :| 0 <= i < |events| && events[i] == Seen(tgUserId, Some(username)) && SilentSince(events, i, tgUserId);
          assert front[i] == events[i] && SilentSince(front, i, tgUserId);
        }
      }
    }
  }

  /** Every row holds the name that the events leave, and users without a row have none. */
  ghost predicate NamesAgree(s: Store, events: seq<Event>) {
    && (forall i :: 0 <= i < |s.users| ==> s.users[i].username == LastName(events, s.users[i].tgUserId))
    && (forall tg :: FindUser(s.users, tg).None? ==> LastName(events, tg).None?)
  }

  lemma UpsertNames(s: Store, events: seq<Event>, e: Event, t: Store)
    requires Inv(s) && NamesAgree(s, events) && t.users == Upserted(s.users, e.tgUserId, NameIn(e))
    ensures NamesAgree(t, events + [e])
  {
    var all := events + [e];
    assert all[..|events|] == events && all[|events|] == e;
    UpsertedKeeps(s.users, e.tgUserId, NameIn(e));
    forall tg
      ensures FindUser(t.users, tg) == if tg == e.tgUserId then Some(UserId(s.users, tg)) else FindUser(s.users, tg)
    {
      FoundAfter(s.users, e.tgUserId, NameIn(e), tg);
    }
    hide Upserted, UserId, FirstWhere, FindUser;
  }

  lemma StepNames(s: Store, events: seq<Event>, op: Op)
    requires Inv(s) && Enabled(s, op) && NamesAgree(s, events)
    ensures NamesAgree(After(s, op), events + EventsOf(s, op))
  {
    hide Upserted, WithDefault, Inv, UserId, NamesAgree;
    assert events + [] == events;
    var added := EventsOf(s, op);
    if added != [] {
      assert added == [added[0]];
      UpsertNames(s, events, added[0], After(s, op));
    } else {
      SameNames(s, events, After(s, op));
    }
  }

  lemma SameNames(s: Store, events: seq<Event>, t: Store)
    requires NamesAgree(s, events) && t.users == s.users
    ensures NamesAgree(t, events)
  {
  }

  lemma {:induction false} RunNames(s: Store, events: seq<Event>, ops: seq<Op>)
    requires Inv(s) && Possible(s, ops) && NamesAgree(s, events)
    ensures NamesAgree(Run(s, ops), events + Events(s, ops))
    decreases |ops|
  {
    hide Inv, After, NamesAgree, EventsOf;
    if ops == [] {
      assert events + [] == events;
    } else {
      StepKeeps(s, ops[0]);
      StepNames(s, events, ops[0]);
      RunNames(After(s, ops[0]), events + EventsOf(s, ops[0]), ops[1..]);
      assert events + EventsOf(s, ops[0]) + Events(After(s, ops[0]), ops[1..]) == events + Events(s, ops);
    }
  }

  /** Over all runs a user carries a name exactly when the last operation that wrote their row gave it to them. */
  lemma EveryRunNames(ops: seq<Op>, tgUserId: string, username: string)
    requires Possible(EMPTY, ops)
    ensures User(tgUserId, Some(username)) in Run(EMPTY, ops).users <==> Carries(Events(EMPTY, ops), tgUserId, username)
  {
    var s, events := Run(EMPTY, ops), Events(EMPTY, ops);
    RunNames(EMPTY, [], ops);
    assert [] + events == events;
    LastNameIs(events, tgUserId, username);
    hide Run, Events, Carries, LastName;
    if LastName(events, tgUserId) == Some(username) {
      var at := FindUser(s.users, tgUserId);
      assert at.Some? && s.users[at.value] == User(tgUserId, Some(username));
    }
  }

  /** The first event about a comes before any event about b. */
  predicate SeenBefore(events: seq<Event>, a: string, b: string) {
    exists i :: 0 <= i < |events| && events[i].tgUserId == a && forall j :: 0 <= j <= i ==> events[j].tgUserId != b
  }

  /** The user table lists the users in the order in which they were first seen. */
  ghost predicate InOrder(s: Store, events: seq<Event>) {
    && (forall i :: 0 <= i < |s.users| ==> Known(events, s.users[i].tgUserId))
    && (forall tg :: FindUser(s.users, tg).None? ==> !Known(events, tg))
    && (forall i, j :: 0 <= i < j < |s.users| ==> SeenBefore(events, s.users[i].tgUserId, s.users[j].tgUserId))
  }

  lemma SeenBeforeAppend(events: seq<Event>, e: Event, a: string, b: string)
    ensures SeenBefore(events, a, b) ==> SeenBefore(events + [e], a, b)
    ensures Known(events, a) && !Known(events, b) ==> SeenBefore(events + [e], a, b)
  {
    var all := events + [e];
    if SeenBefore(events, a, b) {
      var i :| 0 <= i < |events| && events[i].tgUserId == a && forall j :: 0 <= j <= i ==> events[j].tgUserId != b;
      assert all[i].tgUserId == a && forall j :: 0 <= j <= i ==> all[j] == events[j];
    }
    if Known(events, a) && !Known(events, b) {
      var i :| 0 <= i < |events| && events[i].tgUserId == a;
      assert all[i].tgUserId == a && forall j :: 0 <= j <= i ==> all[j] == events[j];
    }
  }

  lemma UpsertOrder(s: Store, events: seq<Event>, e: Event, t: Store)
    requires Inv(s) && InOrder(s, events) && t.users == Upserted(s.users, e.tgUserId, NameIn(e))
    ensures InOrder(t, events + [e])
  {
    var all := events + [e];
    UpsertedKeeps(s.users, e.tgUserId, NameIn(e));
    forall tg
      ensures FindUser(t.users, tg).None? ==> !Known(all, tg)
    {
      FoundAfter(s.users, e.tgUserId, NameIn(e), tg);
      KnownAppend(events, e, tg);
    }
    NewRow(s.users, e.tgUserId, NameIn(e));
    hide Upserted, UserId, FirstWhere, FindUser, Known, SeenBefore;
    forall i | 0 <= i < |t.users|
      ensures Known(all, t.users[i].tgUserId)
    {
      KnownAppend(events, e, t.users[i].tgUserId);
    }
    forall i, j | 0 <= i < j < |t.users|
      ensures SeenBefore(all, t.users[i].tgUserId, t.users[j].tgUserId)
    {
      SeenBeforeAppend(events, e, t.users[i].tgUserId, t.users[j].tgUserId);
    }
  }

  lemma NewRow(users: seq<User>, tgUserId: string, username: Option<string>)
    ensures |Upserted(users, tgUserId, username)| == |users| ||
            (|Upserted(users, tgUserId, username)| == |users| + 1 && FindUser(users, tgUserId).None?)
    ensures |Upserted(users, tgUserId, username)| == |users| + 1 ==> Upserted(users, tgUserId, username)[|users|].tgUserId == tgUserId
  {
  }

  lemma StepOrder(s: Store, events: seq<Event>, op: Op)
    requires Inv(s) && Enabled(s, op) && InOrder(s, events)
    ensures InOrder(After(s, op), events + EventsOf(s, op))
  {
    hide Upserted, WithDefault, Inv, UserId, InOrder;
    assert events + [] == events;
    var added := EventsOf(s, op);
    if added != [] {
      assert added == [added[0]];
      UpsertOrder(s, events, added[0], After(s, op));
    } else {
      SameOrder(s, events, After(s, op));
    }
  }

  lemma SameOrder(s: Store, events: seq<Event>, t: Store)
    requires InOrder(s, events) && t.users == s.users
    ensures InOrder(t, events)
  {
  }

  lemma {:induction false} RunOrder(s: Store, events: seq<Event>, ops: seq<Op>)
    requires Inv(s) && Possible(s, ops) && InOrder(s, events)
    ensures InOrder(Run(s, ops), events + Events(s, ops))
    decreases |ops|
  {
    hide Inv, After, InOrder, EventsOf;
    if ops == [] {
      assert events + [] == events;
    } else {
      StepKeeps(s, ops[0]);
      StepOrder(s, events, ops[0]);
      RunOrder(After(s, ops[0]), events + EventsOf(s, ops[0]), ops[1..]);
      assert events + EventsOf(s, ops[0]) + Events(After(s, ops[0]), ops[1..]) == events + Events(s, ops);
    }
  }

  /** The user carries the name, and was seen before all others who carry it. */
  ghost predicate FirstCarrier(events: seq<Event>, tgUserId: string, username: string) {
    && Carries(events, tgUserId, username)
    && forall other :: Carries(events, other, username) && other != tgUserId ==> SeenBefore(events, tgUserId, other)
  }

  lemma CarrierFirst(s: Store, events: seq<Event>, username: string)
    requires FindUsername(s.users, username).Some? && InOrder(s, events)
    requires forall tg :: User(tg, Some(username)) in s.users <==> Carries(events, tg, username)
    ensures FirstCarrier(events, s.users[FindUsername(s.users, username).value].tgUserId, username)
  {
    var at := FindUsername(s.users, username).value;
    var tg := s.users[at].tgUserId;
    hide Carries, SeenBefore, FirstWhere, Known;
    assert s.users[at] == User(tg, Some(username));
    forall other | Carries(events, other, username) && other != tg
      ensures SeenBefore(events, tg, other)
    {
      var k :| 0 <= k < |s.users| && s.users[k] == User(other, Some(username));
      assert at < k;
    }
  }

  lemma OneFirst(events: seq<Event>, username: string, a: string, b: string)
    requires FirstCarrier(events, a, username) && FirstCarrier(events, b, username)
    ensures a == b
  {
    hide Carries;
  }

  lemma NameResolves(s: Store, events: seq<Event>, username: string, at: nat)
    requires Inv(s) && username != "" && username[0] != '@' && FindUsername(s.users, username) == Some(at) && at < |s.users|
    requires Agrees(s, events, s.users[at].tgUserId)
    ensures var last := LastSet(events, s.users[at].tgUserId);
            Resolve(s, "", username) == if last.None? || last == Some("") then NoDefaultAddress else ResolvedTo(last.value)
  {
    assert FindUser(s.users, s.users[at].tgUserId) == Some(at);
    hide LastSet, Known, DefaultOf;
  }

  /**
   Over all runs a name, with or without its at-sign, resolves to the last address set by the user who carries it
   (unless another user took it since); to the one seen first if there are several, and to nobody exactly when
   nobody carries it.
   */
  lemma EveryRunResolvesName(ops: seq<Op>, username: string)
    requires Possible(EMPTY, ops) && username != "" && username[0] != '@'
    ensures var s, events := Run(EMPTY, ops), Events(EMPTY, ops);
            && Resolve(s, "", "@" + username) == Resolve(s, "", username)
            && (Resolve(s, "", username) != UserNotFound <==> SomeoneCarries(events, username))
            && forall tg :: FirstCarrier(events, tg, username) ==>
                 Resolve(s, "", username) == if LastSet(events, tg).None? || LastSet(events, tg) == Some("") then NoDefaultAddress
                                             else ResolvedTo(LastSet(events, tg).value)
    ensures SomeoneCarries(Events(EMPTY, ops), username) ==> exists tg :: FirstCarrier(Events(EMPTY, ops), tg, username)
  {
    hide Run, Events, Carries, LastSet, Resolve, FirstCarrier, InOrder, Agrees, Inv, Possible;
    RunFacts(ops);
    forall tg
      ensures (User(tg, Some(username)) in Run(EMPTY, ops).users <==> Carries(Events(EMPTY, ops), tg, username))
      ensures Agrees(Run(EMPTY, ops), Events(EMPTY, ops), tg)
    {
      EveryRunNames(ops, tg, username);
      UserFacts(ops, tg);
    }
    NameResolvesFirst(Run(EMPTY, ops), Events(EMPTY, ops), username);
  }

  lemma RunFacts(ops: seq<Op>)
    requires Possible(EMPTY, ops)
    ensures Inv(Run(EMPTY, ops)) && InOrder(Run(EMPTY, ops), Events(EMPTY, ops))
  {
    hide Run, Events, Possible;
    RunKeeps(EMPTY, ops);
    RunOrder(EMPTY, [], ops);
    assert [] + Events(EMPTY, ops) == Events(EMPTY, ops);
  }

  lemma UserFacts(ops: seq<Op>, tgUserId: string)
    requires Possible(EMPTY, ops)
    ensures Agrees(Run(EMPTY, ops), Events(EMPTY, ops), tgUserId)
  {
    hide Run, Events, Possible;
    RunAgrees(EMPTY, [], ops, tgUserId);
    assert [] + Events(EMPTY, ops) == Events(EMPTY, ops);
  }

  lemma NameResolvesFirst(s: Store, events: seq<Event>, username: string)
    requires Inv(s) && InOrder(s, events) && username != "" && username[0] != '@'
    requires forall tg :: (User(tg, Some(username)) in s.users <==> Carries(events, tg, username)) && Agrees(s, events, tg)
    ensures Resolve(s, "", "@" + username) == Resolve(s, "", username)
    ensures Resolve(s, "", username) != UserNotFound <==> SomeoneCarries(events, username)
    ensures forall tg :: FirstCarrier(events, tg, username) ==>
              Resolve(s, "", username) == if LastSet(events, tg).None? || LastSet(events, tg) == Some("") then NoDefaultAddress
                                          else ResolvedTo(LastSet(events, tg).value)
    ensures SomeoneCarries(events, username) ==> exists tg :: FirstCarrier(events, tg, username)
  {
    assert ("@" + username)[1..] == username;
    ResolveNameIff(s, username);
    var at := FindUsername(s.users, username);
    hide Carries, FindUsername, LastSet, Agrees, Inv, InOrder;
    if at.Some? {
      var tg := s.users[at.value].tgUserId;
      CarrierFirst(s, events, username);
      NameResolves(s, events, username, at.value);
      forall other | FirstCarrier(events, other, username)
        ensures other == tg
      {
        OneFirst(events, username, tg, other);
      }
    }
  }

  /** It happens: a user who has given a name is not found by it any more after setting an address. */
  lemma NameLost(tgUserId: string, username: string, address: string)
    requires username != "" && username[0] != '@'
    ensures var ops := [Upsert(tgUserId, Some(username)), SetAddress(tgUserId, address, None)];
            && Possible(EMPTY, ops[..1]) && Resolve(Run(EMPTY, ops[..1]), "", username) != UserNotFound
            && Possible(EMPTY, ops) && Resolve(Run(EMPTY, ops), "", username) == UserNotFound
  {
    hide Run, Possible, Resolve, Events, After, Carries, LastName;
    var first, second := Upsert(tgUserId, Some(username)), SetAddress(tgUserId, address, None);
    var seen, given := Seen(tgUserId, Some(username)), Set(tgUserId, address);
    assert [first, second][..1] == [first];
    OneOp(EMPTY, first);
    TwoOps(EMPTY, first, second);
    EveryRunResolvesName([first], username);
    EveryRunResolvesName([first, second], username);
    NamesOfTwo(seen, given);
    LastNameIs([seen], tgUserId, username);
    assert Carries([seen], tgUserId, username);
    forall tg
      ensures !Carries([seen, given], tg, username)
    {
      LastNameIs([seen, given], tg, username);
    }
    assert Events(EMPTY, [first, second]) == [seen, given] by {
      assert [seen] + [given] == [seen, given];
    }
  }

  lemma OneOp(s: Store, op: Op)
    ensures Possible(s, [op]) <==> Enabled(s, op)
    ensures Events(s, [op]) == EventsOf(s, op)
  {
    hide After, Enabled, EventsOf;
    assert [op][1..] == [];
  }

  lemma TwoOps(s: Store, first: Op, second: Op)
    ensures Possible(s, [first, second]) <==> Enabled(s, first) && Enabled(After(s, first), second)
    ensures Events(s, [first, second]) == EventsOf(s, first) + EventsOf(After(s, first), second)
  {
    hide After, Enabled, EventsOf;
    OneOp(After(s, first), second);
    assert [first, second][1..] == [second];
  }

  lemma NamesOfTwo(seen: Event, given: Event)
    requires seen.tgUserId == given.tgUserId && given.Set?
    ensures LastName([seen], seen.tgUserId) == NameIn(seen)
    ensures forall tg :: LastName([seen, given], tg) == None
  {
    assert [seen, given][..1] == [seen] && [seen][..0] == [];
    forall tg
      ensures LastName([seen, given], tg) == None
    {
      if tg != seen.tgUserId {
        assert LastName([seen, given], tg) == LastName([seen], tg) == LastName([], tg);
      }
    }
  }

  lemma ResolveNameIff(s: Store, username: string)
    requires username != "" && username[0] != '@'
    ensures Resolve(s, "", username) == UserNotFound <==> FindUsername(s.users, username).None?
    ensures FindUsername(s.users, username).None? <==> forall tg :: User(tg, Some(username)) !in s.users
    ensures var at := FindUsername(s.users, username);
            at.Some? ==> at.value < |s.users| && User(s.users[at.value].tgUserId, Some(username)) in s.users
  {
    hide DefaultOf;
    var at := FindUsername(s.users, username);
    if at.Some? {
      assert s.users[at.value] == User(s.users[at.value].tgUserId, Some(username));
    }
  }

  /** A claim that goes through settles the request and is what the claimer resolves to from then on. */
  lemma ClaimPays(s: Store, id: string, tgUserId: string, address: string, now: int, username: string)
    requires Inv(s) && ClaimFailure(s, id, tgUserId, now).None? && tgUserId != "" && address != ""
    ensures var t := After(s, Claim(id, tgUserId, address, now));
            && t.requests[id] == s.requests[id].(status := Claimed, claimedAddress := Some(address))
            && Resolve(t, tgUserId, username) == ResolvedTo(address)
  {
    FoundAfter(s.users, tgUserId, None, tgUserId);
    WithDefaultResolves(s.addresses, UserId(s.users, tgUserId), address, None, UserId(s.users, tgUserId));
    hide Upserted, WithDefault, FirstWhere, FindDefault;
  }

  // ---------- The store ----------

  class WalletDb {
    var users: seq<User>
    var addresses: seq<AddressRow>
    var requests: map<string, Request>

    constructor ()
      ensures View() == EMPTY
    {
      users, addresses, requests := [], [], map[];
    }

    function View(): Store
      reads this
    {
      Store(users, addresses, requests)
    }

    method UpsertUser(tgUserId: string, username: Option<string>) returns (id: nat)
      modifies this`users
      ensures View() == After(old(View()), Upsert(tgUserId, username))
      ensures id == UserId(old(users), tgUserId)
      ensures id < |users| && users[id] == User(tgUserId, username)
    {
      var row := FindUser(users, tgUserId);
      if row.Some? {
        assert users[row.value := users[row.value]] == users;
        if users[row.value].username != username {
          users := users[row.value := users[row.value].(username := username)];
        }
        return row.value;
      }
      users := users + [User(tgUserId, username)];
      id := |users| - 1;
    }

    method SetDefaultAddress(tgUserId: string, address: string, caption: Option<string>)
      modifies this`users, this`addresses
      ensures View() == SetDefault(old(View()), tgUserId, address, caption)
    {
      var userId := UpsertUser(tgUserId, None);
      addresses := ClearDefaults(addresses, userId);
      var existing := FindAddress(addresses, address);
      if existing.Some? {
        var row := addresses[existing.value];
        addresses := addresses[existing.value := AddressRow(userId, row.address, CaptionOr(caption, row.caption), true)];
      } else {
        addresses := addresses + [AddressRow(userId, address, CaptionOr(caption, None), true)];
      }
    }

    method ResolveUserDetail(toTgUserId: string, username: string) returns (r: Resolved)
      ensures r == Resolve(View(), toTgUserId, username)
    {
      if toTgUserId != "" {
        var user := FindUser(users, toTgUserId);
        if user.None? {
          return UserNotFound;
        }
        var row := DefaultOf(addresses, user.value);
        return if row.None? || row.value == "" then NoDefaultAddress else ResolvedTo(row.value);
      }
      if username != "" {
        var cleanUsername := if username[0] == '@' then username[1..] else username;
        var user := FindUsername(users, cleanUsername);
        if user.None? {
          return UserNotFound;
        }
        var row := DefaultOf(addresses, user.value);
        return if row.None? || row.value == "" then NoDefaultAddress else ResolvedTo(row.value);
      }
      r := UserNotFound;
    }

    method CreatePaymentRequest(id: string, fromTgUserId: string, toTgUserId: string, demand: Demand, now: int, ttlSec: int) returns (expiresAt: int)
      requires id !in requests
      modifies this`users, this`requests
      ensures expiresAt == now + ttlSec * 1000
      ensures View() == After(old(View()), Create(id, fromTgUserId, toTgUserId, demand, expiresAt))
    {
      var user := UpsertUser(fromTgUserId, None);
      expiresAt := now + ttlSec * 1000;
      var toUsername := TextOr(demand.toUsername);
      var amountSats := if demand.amountSats == 0 then None else Some(demand.amountSats);
      requests := requests[id := Request(user, toTgUserId, toUsername, amountSats, TextOr(demand.memo), Pending, None, expiresAt)];
    }

    method ClaimPaymentRequest(id: string, toTgUserId: string, address: string, now: int) returns (error: Option<ClaimError>)
      modifies this
      ensures View() == After(old(View()), Claim(id, toTgUserId, address, now))
      ensures error == ClaimFailure(old(View()), id, toTgUserId, now)
      ensures error == Some(NotFound) <==> id !in old(requests)
      ensures error == Some(Unauthorized) <==> id in old(requests) && old(requests)[id].toTgUserId != toTgUserId
      ensures error.None? <==>
              id in old(requests) && var req := old(requests)[id]; req.toTgUserId == toTgUserId && req.status.Pending? && now <= req.expiresAt
      ensures error.Some? && error != Some(HasExpired) ==> View() == old(View())
    {
      if id !in requests {
        return Some(NotFound);
      }
      var req := requests[id];
      if req.toTgUserId != toTgUserId {
        return Some(Unauthorized);
      }
      if !req.status.Pending? {
        return Some(Already(req.status));
      }
      if req.expiresAt < now {
        requests := requests[id := req.(status := Expired)];
        return Some(HasExpired);
      }
      requests := requests[id := req.(status := Claimed, claimedAddress := Some(address))];
      SetDefaultAddress(toTgUserId, address, None);
      error := None;
    }

    /** A request that is read is never pending past its expiry. */
    method GetPaymentRequest(id: string, now: int) returns (r: Option<Request>)
      modifies this`requests
      ensures View() == After(old(View()), Read(id, now))
      ensures r == if id in requests then Some(requests[id]) else None
      ensures r.Some? && r.value.status.Pending? ==> now <= r.value.expiresAt
    {
      if id !in requests {
        return None;
      }
      var req := requests[id];
      if req.status.Pending? && req.expiresAt < now {
        requests := requests[id := req.(status := Expired)];
        req := req.(status := Expired);
      }
      r := Some(req);
    }
  }
}
