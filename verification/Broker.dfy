/** The App Access broker on the heap: the sections of packages/apptransport/channel.go that
    run under its mutex, and the gauges of capacity.go.  Each method is proved to do to the
    broker's fields what AccessTable says the section does to the table. */
module Broker {
  import opened Bytes
  import opened AccessTable
  import opened Sets

  class Channel {
    const binding: Binding
    const serial: string
    const credentialExpires: Option<Time>
    var expires: Time
    var idle: bool
    var claimed: bool
    var closed: bool
    var activeDeadline: Option<Time>

    constructor (binding: Binding, serial: string, credentialExpires: Option<Time>, lease: Time)
      ensures Value() == Chan(binding, serial, credentialExpires, lease, false, false, false, None)
    {
      this.binding, this.serial, this.credentialExpires, expires := binding, serial, credentialExpires, lease;
      idle, claimed, closed, activeDeadline := false, false, false, None;
    }

    ghost function Value(): Chan
      reads this
    {
      Chan(binding, serial, credentialExpires, expires, idle, claimed, closed, activeDeadline)
    }
  }

  // The callbacks that hold an authority slot are not part of this model.
  datatype Gauges = Gauges(connections: nat, active: nat, ready: nat, pendingAdmissions: nat, closed: bool, saturated: nat)

  // ---------- the pending map counts reservations ----------

  ghost predicate Counts(pending: map<Binding, nat>, reserved: map<nat, Binding>) {
    forall b :: (b in pending ==> pending[b] > 0)
                && |Waiting(reserved, Exactly(b))| == if b in pending then pending[b] else 0
  }

  // The reservations whose bindings are among keys, as far as the scope covers them.
  ghost function WaitingIn(reserved: map<nat, Binding>, keys: set<Binding>, scope: Scope): set<nat> {
    set a | a in reserved && reserved[a] in keys && Covers(scope, reserved[a])
  }

  lemma WaitingGrows(reserved: map<nat, Binding>, keys: set<Binding>, key: Binding, scope: Scope)
    requires key !in keys
    ensures |WaitingIn(reserved, keys + {key}, scope)| ==
            |WaitingIn(reserved, keys, scope)| + if Covers(scope, key) then |Waiting(reserved, Exactly(key))| else 0
  {
    var before, after := WaitingIn(reserved, keys, scope), WaitingIn(reserved, keys + {key}, scope);
    var more := Waiting(reserved, Exactly(key));
    if Covers(scope, key) {
      assert after == before + more && before * more == {};
    } else {
      assert after == before;
    }
  }

  lemma WaitingAll(reserved: map<nat, Binding>, pending: map<Binding, nat>, scope: Scope)
    requires Counts(pending, reserved)
    ensures WaitingIn(reserved, pending.Keys, scope) == Waiting(reserved, scope)
  {
    forall a | a in reserved ensures reserved[a] in pending {
      assert a in Waiting(reserved, Exactly(reserved[a]));
    }
  }

  function Sum(pending: map<Binding, nat>, keys: seq<Binding>): nat
    requires forall b | b in keys :: b in pending
  {
    if keys == [] then 0 else pending[keys[0]] + Sum(pending, keys[1..])
  }

  /** In whatever order the map is ranged over, its counts add up to the number of
      reservations. */
  lemma {:induction false} PendingSum(pending: map<Binding, nat>, reserved: map<nat, Binding>, keys: seq<Binding>)
    requires Counts(pending, reserved) && (forall b | b in keys :: b in pending)
    requires forall i, j | 0 <= i < j < |keys| :: keys[i] != keys[j]
    ensures Sum(pending, keys) == |WaitingIn(reserved, (set b | b in keys), Everything)|
    ensures (forall b | b in pending :: b in keys) ==> Sum(pending, keys) == |reserved|
    decreases |keys|
  {
    var named := set b | b in keys;
    if keys != [] {
      var rest := set b | b in keys[1..];
      assert named == rest + {keys[0]};
      PendingSum(pending, reserved, keys[1..]);
      WaitingGrows(reserved, rest, keys[0], Everything);
    } else {
      assert WaitingIn(reserved, named, Everything) == {};
    }
    if forall b | b in pending :: b in keys {
      assert named == pending.Keys;
      WaitingAll(reserved, pending, Everything);
      assert Waiting(reserved, Everything) == reserved.Keys;
    }
  }

  lemma CountsMore(pending: map<Binding, nat>, reserved: map<nat, Binding>, a: nat, b: Binding)
    requires Counts(pending, reserved) && a !in reserved
    ensures Counts(pending[b := 1 + if b in pending then pending[b] else 0], reserved[a := b])
  {
    var later := pending[b := 1 + if b in pending then pending[b] else 0];
    forall k ensures (k in later ==> later[k] > 0)
                     && |Waiting(reserved[a := b], Exactly(k))| == if k in later then later[k] else 0
    {
      WaitingWith(reserved, a, b, Exactly(k));
      assert |Waiting(reserved, Exactly(k))| == if k in pending then pending[k] else 0;
    }
  }

  function Dropped(pending: map<Binding, nat>, b: Binding): map<Binding, nat>
    requires b in pending && pending[b] > 0
  {
    if pending[b] == 1 then pending - {b} else pending[b := pending[b] - 1]
  }

  lemma CountsFewer(pending: map<Binding, nat>, reserved: map<nat, Binding>, a: nat)
    requires Counts(pending, reserved) && a in reserved
    ensures reserved[a] in pending && pending[reserved[a]] > 0
    ensures Counts(Dropped(pending, reserved[a]), reserved - {a})
  {
    var b := reserved[a];
    var fewer := reserved - {a};
    assert fewer[a := b] == reserved;
    assert a in Waiting(reserved, Exactly(b));
    var later := Dropped(pending, b);
    forall k ensures (k in later ==> later[k] > 0)
                     && |Waiting(fewer, Exactly(k))| == if k in later then later[k] else 0
    {
      WaitingWith(fewer, a, b, Exactly(k));
      assert |Waiting(reserved, Exactly(k))| == if k in pending then pending[k] else 0;
    }
  }

  lemma OpenGrows<K>(channels: map<K, Chan>, seen: set<K>, c: K, scope: Scope)
    requires c !in seen && c in channels
    ensures |Open(channels, seen + {c}, scope)| ==
            |Open(channels, seen, scope)| + if Counted(scope, channels[c]) then 1 else 0
  {
    Grown(Open(channels, seen, scope), Open(channels, seen + {c}, scope), c);
  }

  // What the two loops of Accept have counted so far.
  ghost predicate PendingTally(reserved: map<nat, Binding>, seen: set<Binding>, b: Binding, organization: nat, share: nat) {
    && organization == |WaitingIn(reserved, seen, Organization(b.org))|
    && share == |WaitingIn(reserved, seen, Share(b.org, b.app))|
  }

  lemma PendingTallyGrows(reserved: map<nat, Binding>, seen: set<Binding>, b: Binding, organization: nat, share: nat,
                          other: Binding, count: nat)
    requires PendingTally(reserved, seen, b, organization, share)
    requires other !in seen && count == |Waiting(reserved, Exactly(other))|
    ensures PendingTally(reserved, seen + {other}, b,
                         organization + (if other.org == b.org then count else 0),
                         share + (if other.org == b.org && other.app == b.app then count else 0))
  {
    WaitingGrows(reserved, seen, other, Organization(b.org));
    WaitingGrows(reserved, seen, other, Share(b.org, b.app));
  }

  lemma PendingTallied(reserved: map<nat, Binding>, pending: map<Binding, nat>, b: Binding, organization: nat, share: nat)
    requires Counts(pending, reserved) && PendingTally(reserved, pending.Keys, b, organization, share)
    ensures organization == |Waiting(reserved, Organization(b.org))|
    ensures share == |Waiting(reserved, Share(b.org, b.app))|
  {
    WaitingAll(reserved, pending, Organization(b.org));
    WaitingAll(reserved, pending, Share(b.org, b.app));
  }

  // The reservations that Accept counts by organization and by share.
  method CountPending(pending: map<Binding, nat>, ghost reserved: map<nat, Binding>, binding: Binding)
    returns (organization: nat, share: nat)
    requires Counts(pending, reserved)
    ensures organization == |Waiting(reserved, Organization(binding.org))|
    ensures share == |Waiting(reserved, Share(binding.org, binding.app))|
  {
    organization, share := 0, 0;
    ghost var seen: set<Binding> := {};
    var rest := pending.Keys;
    NothingTallied(reserved, binding);
    while rest != {}
      invariant rest !! seen && rest + seen == pending.Keys
      invariant PendingTally(reserved, seen, binding, organization, share)
      decreases rest
    {
      var other :| other in rest;
      var count := pending[other];
      PendingTallyGrows(reserved, seen, binding, organization, share, other, count);
      if other.org == binding.org {
        organization := organization + count;
        if other.app == binding.app { share := share + count; }
      }
      assert PendingTally(reserved, seen + {other}, binding, organization, share);
      Moved(rest, seen, other);
      rest, seen := rest - {other}, seen + {other};
    }
    assert seen == pending.Keys;
    PendingTallied(reserved, pending, binding, organization, share);
  }

  lemma NothingTallied(reserved: map<nat, Binding>, b: Binding)
    ensures PendingTally(reserved, {}, b, 0, 0)
  {
  }

  ghost predicate OpenTally<K>(channels: map<K, Chan>, seen: set<K>, b: Binding, idle: nat, organization: nat, share: nat) {
    && idle == |Open(channels, seen, Exactly(b))|
    && organization == |Open(channels, seen, Organization(b.org))|
    && share == |Open(channels, seen, Share(b.org, b.app))|
  }

  lemma OpenTallyGrows<K>(channels: map<K, Chan>, seen: set<K>, b: Binding, idle: nat, organization: nat, share: nat, c: K)
    requires OpenTally(channels, seen, b, idle, organization, share) && c !in seen && c in channels
    ensures var x := channels[c];
            OpenTally(channels, seen + {c}, b,
                      idle + (if x.binding == b && !x.claimed then 1 else 0),
                      organization + (if x.binding.org == b.org then 1 else 0),
                      share + (if x.binding.org == b.org && x.binding.app == b.app then 1 else 0))
  {
    OpenGrows(channels, seen, c, Exactly(b));
    OpenGrows(channels, seen, c, Organization(b.org));
    OpenGrows(channels, seen, c, Share(b.org, b.app));
  }

  lemma Moved<T>(rest: set<T>, seen: set<T>, x: T)
    requires x in rest && rest !! seen
    ensures (rest - {x}) + (seen + {x}) == rest + seen && rest - {x} !! seen + {x}
  {
  }

  ghost function Claims(cs: set<Channel>): set<Channel>
    reads cs
  {
    set c | c in cs && c.claimed
  }

  class Broker {
    const purpose: string
    var connections: set<Channel>
    var closed: bool
    var notify: nat
    var pending: map<Binding, nat>
    var pendingCount: nat
    var admissionSaturated: nat
    ghost var made: set<Channel>
    ghost var reserved: map<nat, Binding>

    constructor (purpose: string)
      ensures Valid() && View() == Table(purpose, map[], {}, map[], 0, false, 0) && fresh(made)
    {
      this.purpose, connections, closed, notify := purpose, {}, false, 0;
      pending, pendingCount, admissionSaturated := map[], 0, 0;
      made, reserved := {}, map[];
      new;
      forall b ensures Waiting(reserved, Exactly(b)) == {} {
      }
      assert Channels() == map[];
    }

    ghost predicate Valid()
      reads this, made
    {
      && connections <= made && (forall c | c in made :: c in connections <==> !c.closed)
      && Counts(pending, reserved) && pendingCount == |reserved|
    }

    ghost function Channels(): map<Channel, Chan>
      reads this`made, made
    {
      map c | c in made :: c.Value()
    }

    ghost function View(): Table<Channel>
      reads this, made
    {
      Table(purpose, Channels(), connections, reserved, notify, closed, admissionSaturated)
    }

    // The channels that Accept counts: unclaimed ones of the binding, and all of the
    // organization and the share.
    method CountOpen(binding: Binding) returns (idle: nat, organization: nat, share: nat)
      requires Valid()
      ensures OpenTally(Channels(), connections, binding, idle, organization, share)
    {
      idle, organization, share := 0, 0, 0;
      ghost var channels := Channels();
      ghost var seen: set<Channel> := {};
      var rest := connections;
      while rest != {}
        invariant rest !! seen && rest + seen == connections
        invariant OpenTally(channels, seen, binding, idle, organization, share)
        decreases rest
      {
        var c :| c in rest;
        OpenTallyGrows(channels, seen, binding, idle, organization, share, c);
        assert channels[c] == c.Value() && !c.closed;
        if c.binding == binding && !c.claimed && !c.closed { idle := idle + 1; }
        if !c.closed && c.binding.org == binding.org {
          organization := organization + 1;
          if c.binding.app == binding.app { share := share + 1; }
        }
        Moved(rest, seen, c);
        rest, seen := rest - {c}, seen + {c};
      }
      assert seen == connections;
    }

    // A reservation is counted, in all and for its binding.
    method Hold(ghost a: nat, binding: Binding)
      requires Valid() && a !in reserved
      modifies this
      ensures Valid() && made == old(made) && View() == AccessTable.Reserve(old(View()), a, binding)
    {
      CountsMore(pending, reserved, a, binding);
      pending := pending[binding := 1 + if binding in pending then pending[binding] else 0];
      pendingCount := pendingCount + 1;
      reserved := reserved[a := binding];
    }

    // The admission test, over both loops' counts.
    method Full(binding: Binding) returns (full: bool)
      requires Valid()
      ensures full <==> !Admissible(View(), binding)
    {
      var waiting := if binding in pending then pending[binding] else 0;
      assert waiting == |Waiting(reserved, Exactly(binding))|;
      var open, organization, share := CountOpen(binding);
      full := closed || |connections| + pendingCount >= 128 || waiting + open >= 2;
      if purpose == BEAM {
        var organizationPending, sharePending := CountPending(pending, reserved, binding);
        full := full || share + sharePending >= 34 || organization + organizationPending >= 64;
      }
    }

    /** The first section of Accept: the limits are tested and the reservation is made. */
    method Reserve(ghost a: nat, binding: Binding) returns (ok: bool)
      requires Valid() && a !in reserved
      modifies this
      ensures Valid() && made == old(made)
      ensures ok <==> Admissible(old(View()), binding)
      ensures View() == if ok then AccessTable.Reserve(old(View()), a, binding) else Refuse(old(View()))
      ensures reserved == if ok then old(reserved)[a := binding] else old(reserved)
      ensures admissionSaturated == old(admissionSaturated) + if ok || closed then 0 else 1
    {
      var full := Full(binding);
      if full {
        if !closed { admissionSaturated := admissionSaturated + 1; }
        return false;
      }
      Hold(a, binding);
      return true;
    }

    method Decrement(binding: Binding)
      requires binding in pending && pending[binding] > 0
      modifies `pending
      ensures pending == Dropped(old(pending), binding)
    {
      pending := pending[binding := pending[binding] - 1];
      if pending[binding] == 0 { pending := pending - {binding}; }
    }

    /** The release of a reservation, as the failing paths of Accept run it. */
    method Release(ghost a: nat, binding: Binding)
      requires Valid() && a in reserved && reserved[a] == binding
      modifies this
      ensures Valid() && made == old(made) && View() == AccessTable.Release(old(View()), a)
    {
      CountsFewer(pending, reserved, a);
      assert reserved.Keys == (reserved - {a}).Keys + {a};
      Decrement(binding);
      pendingCount := pendingCount - 1;
      reserved := reserved - {a};
    }

    /** The last section of Accept: the channel takes the place of the reservation, unless
        the broker has been closed. */
    method Insert(ghost a: nat, binding: Binding, serial: string, credential: Option<Time>, lease: Time)
      returns (inserted: Option<Channel>)
      requires Valid() && a in reserved && reserved[a] == binding
      modifies this
      ensures Valid() && inserted.None? == old(closed)
      ensures inserted == None ==> View() == old(View()) && made == old(made)
      ensures inserted.Some? ==>
                var c := inserted.value;
                && fresh(c) && made == old(made) + {c}
                && View() == AccessTable.Insert(old(View()), a, c, Chan(binding, serial, credential, lease, false, false, false, None))
    {
      if closed { return None; }
      ghost var before := Channels();
      Release(a, binding);
      var c := new Channel(binding, serial, credential, lease);
      made := made + {c};
      connections := connections + {c};
      assert Channels() == before[c := c.Value()];
      return Some(c);
    }

    /** A made channel is offered to Dial, and every blocked Dial is woken. */
    method MarkIdle(c: Channel)
      requires Valid() && c in made
      modifies this, c
      ensures Valid() && made == old(made) && View() == AccessTable.MarkIdle(old(View()), c)
      ensures c.idle && notify == old(notify) + 1
    {
      ghost var before := Channels();
      c.idle := true;
      notify := notify + 1;
      assert Channels() == before[c := c.Value()];
    }

    /** channel.Close: only its first call does anything. */
    method CloseChannel(c: Channel)
      requires Valid() && c in made
      modifies this, c
      ensures Valid() && made == old(made)
      ensures View() == if old(c.closed) then old(View()) else AccessTable.CloseChannel(old(View()), c)
      ensures c.closed && c !in connections && notify == old(notify) + if old(c.closed) then 0 else 1
      ensures reserved == old(reserved) && closed == old(closed)
    {
      if c.closed { return; }
      ghost var before := Channels();
      c.closed := true;
      connections := connections - {c};
      notify := notify + 1;
      assert Channels() == before[c := c.Value()];
    }

    /** Broker.Close, when nobody interferes: every channel is closed. */
    method Close()
      requires Valid()
      modifies this, made
      ensures Valid() && made == old(made) && closed && connections == {} && reserved == old(reserved)
      ensures (forall c | c in made :: c.closed) && notify > old(notify)
    {
      closed := true;
      var all := connections;
      notify := notify + 1;
      while all != {}
        invariant Valid() && made == old(made) && closed && connections <= all <= made && reserved == old(reserved)
        invariant notify > old(notify)
        decreases |all|
      {
        var c :| c in all;
        ghost var before := View();
        CloseChannel(c);
        assert connections == View().connections;
        all := all - {c};
      }
    }

    /** One scan of Dial: an offered channel of exactly this binding is claimed, or there is
        none and the notify channel of this moment is returned. */
    method Claim(binding: Binding, now: Time) returns (selected: Option<Channel>, generation: nat)
      requires Valid()
      modifies this, connections
      ensures Valid() && made == old(made) && generation == notify
      ensures selected == None ==>
                View() == old(View()) && forall c | c in connections :: !Claimable(old(View()), c, binding)
      ensures selected.Some? ==>
                Claimable(old(View()), selected.value, binding)
                && View() == AccessTable.Claim(old(View()), selected.value, now)
      ensures selected.Some? ==>
                var c := selected.value;
                && c.claimed && !c.idle && c.expires == old(c.expires)
                && c.activeDeadline == if purpose == "origin_check" then Some(now + 10000) else old(c.activeDeadline)
    {
      selected := None;
      ghost var t := View();
      var rest := connections;
      while rest != {}
        invariant rest <= connections && View() == t && made == old(made) && Valid()
        invariant forall c | c in connections - rest :: !Claimable(t, c, binding)
        decreases rest
      {
        var c :| c in rest;
        assert t.channels[c] == c.Value();
        if c.binding == binding && c.idle && !c.closed {
          c.idle := false;
          c.claimed := true;
          if purpose == ORIGIN { c.activeDeadline := Some(now + 10 * SECOND); }
          assert Channels() == t.channels[c := c.Value()];
          return Some(c), notify;
        }
        rest := rest - {c};
      }
      generation := notify;
    }

    /** The last section of renew: a new lease is taken only while the old one runs. */
    method Renew(c: Channel, lease: Time, now: Time) returns (ok: bool)
      requires Valid() && c in made
      modifies c
      ensures Valid() && ok == Renewable(old(c.Value()), now)
      ensures View() == if ok then AccessTable.Renew(old(View()), c, lease) else old(View())
      ensures ok == (!old(c.closed) && now < old(c.expires)) && c.expires == if ok then lease else old(c.expires)
    {
      if c.closed || now >= c.expires { return false; }
      ghost var before := Channels();
      c.expires := lease;
      assert Channels() == before[c := c.Value()];
      return true;
    }

    /** The gauges: every channel in the table is either active or ready. */
    method Capacity() returns (out: Gauges)
      requires Valid()
      ensures out.active == |Claims(connections)| && out.active + out.ready == out.connections
      ensures out.connections == |connections| && out.pendingAdmissions == |reserved|
      ensures out.closed == closed && out.saturated == admissionSaturated
    {
      out := Gauges(|connections|, 0, 0, pendingCount, closed, admissionSaturated);
      ghost var seen: set<Channel> := {};
      var rest := connections;
      while rest != {}
        invariant rest !! seen && rest + seen == connections
        invariant out == Gauges(|connections|, out.active, out.ready, pendingCount, closed, admissionSaturated)
        invariant out.active == |Claims(seen)| && out.active + out.ready == |seen|
        decreases rest
      {
        var c :| c in rest;
        Grown(Claims(seen), Claims(seen + {c}), c);
        Moved(rest, seen, c);
        if c.claimed { out := out.(active := out.active + 1); } else { out := out.(ready := out.ready + 1); }
        rest, seen := rest - {c}, seen + {c};
      }
      assert seen == connections;
    }
  }
}
