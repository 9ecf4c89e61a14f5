/** The App Access broker's table (packages/apptransport/channel.go), as a value.

    Each function is what one section under the broker's mutex does to the table.  K is the
    identity of a channel: a reference on the heap, a number in a run. */
module AccessTable {
  import opened Bytes
  import opened Sets

  // Milliseconds.
  type Time = nat
  const SECOND: Time := 1000

  datatype Binding = Binding(org: string, gateway: string, app: string, generation: string, digest: string,
                             purpose: string, revision: int, hostname: string, authorityVersion: int)

  const ORIGIN := "origin_check"
  const BROWSER := "browser_proxy"
  const BEAM := "beam_proxy"

  function MaxLease(purpose: string): Time {
    if purpose == BROWSER || purpose == BEAM then 4 * SECOND else 5 * SECOND
  }

  // credential is None for a request without TLS.
  datatype Chan = Chan(binding: Binding, serial: string, credential: Option<Time>, expires: Time,
                       idle: bool, claimed: bool, closed: bool, active: Option<Time>)

  // channels: every channel ever made; reserved: the admissions that hold a reservation.
  datatype Table<K> = Table(purpose: string, channels: map<K, Chan>, connections: set<K>,
                            reserved: map<nat, Binding>, notify: nat, closed: bool, saturated: nat)

  // ---------- what the limits count ----------

  datatype Scope = Everything | Organization(org: string) | Share(org: string, app: string) | Exactly(binding: Binding)

  predicate Covers(scope: Scope, b: Binding) {
    match scope
    case Everything => true
    case Organization(org) => b.org == org
    case Share(org, app) => b.org == org && b.app == app
    case Exactly(binding) => b == binding
  }

  predicate Limited(purpose: string, scope: Scope) {
    scope.Everything? || scope.Exactly? || purpose == BEAM
  }

  function Limit(scope: Scope): nat {
    match scope
    case Everything => 128
    case Organization(_) => 64
    case Share(_, _) => 34
    case Exactly(_) => 2
  }

  function Waiting(reserved: map<nat, Binding>, scope: Scope): set<nat> {
    set a | a in reserved && Covers(scope, reserved[a])
  }

  // A claimed channel still counts, except against its own binding.
  predicate Counted(scope: Scope, c: Chan) {
    Covers(scope, c.binding) && (scope.Exactly? ==> !c.claimed)
  }

  function Open<K>(channels: map<K, Chan>, connections: set<K>, scope: Scope): set<K> {
    set c | c in connections && c in channels && Counted(scope, channels[c])
  }

  function Load<K>(t: Table<K>, scope: Scope): nat {
    |Waiting(t.reserved, scope)| + |Open(t.channels, t.connections, scope)|
  }

  /** The admission test of Accept. */
  ghost predicate Admissible<K>(t: Table<K>, b: Binding) {
    && !t.closed && |t.connections| + |t.reserved| < 128 && Load(t, Exactly(b)) < 2
    && (t.purpose == BEAM ==> Load(t, Share(b.org, b.app)) < 34 && Load(t, Organization(b.org)) < 64)
  }

  // ---------- the sections under the mutex ----------

  function Reserve<K>(t: Table<K>, a: nat, b: Binding): Table<K> {
    t.(reserved := t.reserved[a := b])
  }

  function Refuse<K>(t: Table<K>): Table<K> {
    if t.closed then t else t.(saturated := t.saturated + 1)
  }

  function Release<K>(t: Table<K>, a: nat): Table<K> {
    t.(reserved := t.reserved - {a})
  }

  function Insert<K>(t: Table<K>, a: nat, c: K, chan: Chan): Table<K> {
    t.(reserved := t.reserved - {a}, channels := t.channels[c := chan], connections := t.connections + {c})
  }

  function MarkIdle<K>(t: Table<K>, c: K): Table<K>
    requires c in t.channels
  {
    t.(channels := t.channels[c := t.channels[c].(idle := true)], notify := t.notify + 1)
  }

  function CloseChannel<K>(t: Table<K>, c: K): Table<K>
    requires c in t.channels
  {
    t.(channels := t.channels[c := t.channels[c].(closed := true)], connections := t.connections - {c},
       notify := t.notify + 1)
  }

  predicate Claimable<K>(t: Table<K>, c: K, b: Binding) {
    c in t.connections && c in t.channels && t.channels[c].binding == b && t.channels[c].idle && !t.channels[c].closed
  }

  function Claimed(purpose: string, c: Chan, now: Time): Chan {
    c.(idle := false, claimed := true, active := if purpose == ORIGIN then Some(now + 10 * SECOND) else c.active)
  }

  function Claim<K>(t: Table<K>, c: K, now: Time): Table<K>
    requires c in t.channels
  {
    t.(channels := t.channels[c := Claimed(t.purpose, t.channels[c], now)])
  }

  predicate Renewable(c: Chan, now: Time) {
    !c.closed && now < c.expires
  }

  function Renew<K>(t: Table<K>, c: K, lease: Time): Table<K>
    requires c in t.channels
  {
    t.(channels := t.channels[c := t.channels[c].(expires := lease)])
  }

  function Shutdown<K>(t: Table<K>): Table<K> {
    t.(closed := true, notify := t.notify + 1)
  }

  // ---------- what every section keeps ----------

  ghost predicate Within<K>(t: Table<K>) {
    forall scope | Limited(t.purpose, scope) :: Load(t, scope) <= Limit(scope)
  }

  ghost predicate Proper<K>(t: Table<K>) {
    && t.connections <= t.channels.Keys
    && (forall c | c in t.channels :: c in t.connections <==> !t.channels[c].closed)
    && (forall c | c in t.channels :: t.channels[c].claimed ==> !t.channels[c].idle)
    && (forall c | c in t.channels :: t.channels[c].binding.purpose == t.purpose)
    && (forall a | a in t.reserved :: t.reserved[a].purpose == t.purpose)
  }

  /** Fewer reservations and fewer counted channels never break a limit. */
  lemma LoadFalls<K>(t: Table<K>, u: Table<K>)
    requires Within(t) && u.purpose == t.purpose && u.connections <= t.connections <= t.channels.Keys
    requires u.reserved.Keys <= t.reserved.Keys && (forall a | a in u.reserved :: u.reserved[a] == t.reserved[a])
    requires forall c | c in u.connections :: c in u.channels && u.channels[c].binding == t.channels[c].binding
                                               && (t.channels[c].claimed ==> u.channels[c].claimed)
    ensures Within(u)
  {
    forall scope | Limited(u.purpose, scope) ensures Load(u, scope) <= Limit(scope) {
      Fewer(Waiting(u.reserved, scope), Waiting(t.reserved, scope));
      Fewer(Open(u.channels, u.connections, scope), Open(t.channels, t.connections, scope));
      assert Load(t, scope) <= Limit(scope);
    }
  }

  lemma Totals<K>(t: Table<K>)
    requires t.connections <= t.channels.Keys
    ensures Load(t, Everything) == |t.connections| + |t.reserved|
  {
    assert Waiting(t.reserved, Everything) == t.reserved.Keys;
    assert Open(t.channels, t.connections, Everything) == t.connections;
  }

  lemma WaitingWith(reserved: map<nat, Binding>, a: nat, b: Binding, scope: Scope)
    requires a !in reserved
    ensures |Waiting(reserved[a := b], scope)| == |Waiting(reserved, scope)| + if Covers(scope, b) then 1 else 0
  {
    var later := reserved[a := b];
    forall d | d != a ensures d in Waiting(reserved, scope) <==> d in Waiting(later, scope) {
      assert d in reserved <==> d in later;
      assert d in reserved ==> later[d] == reserved[d];
    }
    assert later[a] == b;
    Grown(Waiting(reserved, scope), Waiting(later, scope), a);
  }

  lemma OpenWith<K>(channels: map<K, Chan>, connections: set<K>, c: K, chan: Chan, scope: Scope)
    requires c !in connections
    ensures |Open(channels[c := chan], connections + {c}, scope)| ==
            |Open(channels, connections, scope)| + if Counted(scope, chan) then 1 else 0
  {
    var later := channels[c := chan];
    var before, after := Open(channels, connections, scope), Open(later, connections + {c}, scope);
    forall d | d != c ensures d in before <==> d in after {
      assert d in channels <==> d in later;
      assert d in channels ==> later[d] == channels[d];
    }
    assert later[c] == chan;
    Grown(before, after, c);
  }

  lemma ReserveWithin<K>(t: Table<K>, a: nat, b: Binding, scope: Scope)
    requires Proper(t) && Within(t) && a !in t.reserved && Admissible(t, b) && Limited(t.purpose, scope)
    ensures Load(Reserve(t, a, b), scope) <= Limit(scope)
  {
    Totals(t);
    WaitingWith(t.reserved, a, b, scope);
    assert Load(t, scope) <= Limit(scope);
    if Covers(scope, b) {
      assert scope in {Everything, Organization(b.org), Share(b.org, b.app), Exactly(b)};
    }
  }

  /** An admitted reservation stays within every limit: the four scopes tested are the only
      limited scopes that the new reservation is counted in. */
  lemma ReserveKeeps<K>(t: Table<K>, a: nat, b: Binding)
    requires Proper(t) && Within(t) && a !in t.reserved && b.purpose == t.purpose && Admissible(t, b)
    ensures Proper(Reserve(t, a, b)) && Within(Reserve(t, a, b))
  {
    var u := Reserve(t, a, b);
    forall scope | Limited(u.purpose, scope) ensures Load(u, scope) <= Limit(scope) {
      ReserveWithin(t, a, b, scope);
    }
  }

  lemma ReleaseKeeps<K>(t: Table<K>, a: nat)
    requires Proper(t) && Within(t)
    ensures Proper(Release(t, a)) && Within(Release(t, a))
  {
    LoadFalls(t, Release(t, a));
  }

  /** The reservation becomes the channel: no load changes. */
  lemma InsertKeeps<K>(t: Table<K>, a: nat, c: K, chan: Chan)
    requires Proper(t) && Within(t) && a in t.reserved && c !in t.channels
    requires chan.binding == t.reserved[a] && !chan.closed && !chan.claimed
    ensures Proper(Insert(t, a, c, chan)) && Within(Insert(t, a, c, chan))
  {
    var u := Insert(t, a, c, chan);
    forall scope | Limited(u.purpose, scope) ensures Load(u, scope) <= Limit(scope) {
      assert u.reserved[a := t.reserved[a]] == t.reserved;
      WaitingWith(u.reserved, a, t.reserved[a], scope);
      OpenWith(t.channels, t.connections, c, chan, scope);
      assert Load(t, scope) <= Limit(scope);
    }
  }

  lemma MarkIdleKeeps<K>(t: Table<K>, c: K)
    requires Proper(t) && Within(t) && c in t.channels && !t.channels[c].claimed
    ensures Proper(MarkIdle(t, c)) && Within(MarkIdle(t, c))
  {
    LoadFalls(t, MarkIdle(t, c));
  }

  lemma CloseChannelKeeps<K>(t: Table<K>, c: K)
    requires Proper(t) && Within(t) && c in t.channels
    ensures Proper(CloseChannel(t, c)) && Within(CloseChannel(t, c))
  {
    LoadFalls(t, CloseChannel(t, c));
  }

  lemma ClaimKeeps<K>(t: Table<K>, c: K, now: Time)
    requires Proper(t) && Within(t) && c in t.channels
    ensures Proper(Claim(t, c, now)) && Within(Claim(t, c, now))
  {
    LoadFalls(t, Claim(t, c, now));
  }
}
