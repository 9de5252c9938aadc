/** The single writer lease: one connection at a time may mutate the patch, until the
    lease expires, is released or its connection goes away. */
module Lease {
  import opened Basics

  type Connection(==, !new)

  type LeaseId(==, !new)

  datatype Holder = NoHolder | Holder(leaseId: LeaseId, clientName: string, connection: Connection, expiresAt: int)

  predicate Live(h: Holder, now: int) {
    h.Holder? && now < h.expiresAt
  }

  predicate IsWriterOf(h: Holder, c: Connection, now: int) {
    Live(h, now) && h.connection == c
  }

  /** The holder holds this very lease, unexpired. */
  predicate Holds(h: Holder, c: Connection, id: LeaseId, now: int) {
    IsWriterOf(h, c, now) && h.leaseId == id
  }

  /** `drawn` is the fresh id used if a new lease has to be made. */
  function Acquired(h: Holder, c: Connection, name: string, now: int, ttl: int, drawn: LeaseId): (Holder,
          Option<LeaseId>) {
    if Live(h, now) && h.connection != c then (h, None)
    else if Live(h, now) then (h.(expiresAt := now + ttl), Some(h.leaseId))
    else (Holder(drawn, name, c, now + ttl), Some(drawn))
  }

  function Renewed(h: Holder, c: Connection, id: LeaseId, now: int, ttl: int): (Holder, bool) {
    if Holds(h, c, id, now) then (h.(expiresAt := now + ttl), true) else (h, false)
  }

  /** An expired lease can still be released by the connection that had it. */
  function Released(h: Holder, c: Connection, id: LeaseId): (Holder, bool) {
    if h.Holder? && h.connection == c && h.leaseId == id then (NoHolder, true) else (h, false)
  }

  function Dropped(h: Holder, c: Connection): Holder {
    if h.Holder? && h.connection == c then NoHolder else h
  }

  class LeaseManager {
    var holder: Holder

    constructor ()
      ensures holder == NoHolder
    {
      holder := NoHolder;
    }

    method Acquire(c: Connection, name: string, now: int, ttl: int, drawn: LeaseId) returns (granted: Option<LeaseId>)
      modifies this
      ensures (holder, granted) == Acquired(old(holder), c, name, now, ttl, drawn)
    {
      var held := holder.Holder?;
      var expired := held && now >= holder.expiresAt;
      if held && !expired && holder.connection != c {
        return None;
      }
      if held && !expired && holder.connection == c {
        holder := holder.(expiresAt := now + ttl);
        return Some(holder.leaseId);
      }
      holder := Holder(drawn, name, c, now + ttl);
      return Some(drawn);
    }

    method Renew(c: Connection, id: LeaseId, now: int, ttl: int) returns (ok: bool)
      modifies this
      ensures (holder, ok) == Renewed(old(holder), c, id, now, ttl)
    {
      if !holder.Holder? || holder.connection != c || holder.leaseId != id {
        return false;
      }
      if now >= holder.expiresAt {
        return false;
      }
      holder := holder.(expiresAt := now + ttl);
      return true;
    }

    method Release(c: Connection, id: LeaseId) returns (ok: bool)
      modifies this
      ensures (holder, ok) == Released(old(holder), c, id)
    {
      if !holder.Holder? || holder.connection != c || holder.leaseId != id {
        return false;
      }
      holder := NoHolder;
      return true;
    }

    method OnDisconnect(c: Connection)
      modifies this
      ensures holder == Dropped(old(holder), c)
    {
      if holder.Holder? && holder.connection == c {
        holder := NoHolder;
      }
    }

    method IsWriter(c: Connection, now: int) returns (writer: bool)
      ensures writer <==> IsWriterOf(holder, c, now)
    {
      return holder.Holder? && holder.connection == c && now < holder.expiresAt;
    }

    /** The holder as of `now`; an expired one counts as none. */
    method HolderAt(now: int) returns (h: Holder)
      ensures h == if Live(holder, now) then holder else NoHolder
    {
      h := holder;
      if h.Holder? && now >= h.expiresAt {
        h := NoHolder;
      }
    }
  }

  datatype LeaseRequest = Acquire(name: string) | Renew(leaseId: LeaseId) | Release(leaseId: LeaseId)

  /** What a lease request from a connection leaves. */
  function Served(h: Holder, c: Connection, r: LeaseRequest, now: int, ttl: int, drawn: LeaseId): Holder {
    match r
    case Acquire(name) => Acquired(h, c, name, now, ttl, drawn).0
    case Renew(id) => Renewed(h, c, id, now, ttl).0
    case Release(id) => Released(h, c, id).0
  }

  /** What the connection is told. */
  datatype LeaseReply = Granted(leaseId: LeaseId) | HeldBy(clientName: string) | Extended | NotYours | Cleared

  function Told(h: Holder, c: Connection, r: LeaseRequest, now: int, ttl: int, drawn: LeaseId): LeaseReply {
    match r
    case Acquire(name) =>
      (match Acquired(h, c, name, now, ttl, drawn).1
       case Some(id) => Granted(id)
       case None => HeldBy(if h.Holder? then h.clientName else ""))
    case Renew(id) => if Renewed(h, c, id, now, ttl).1 then Extended else NotYours
    case Release(_) => Cleared
  }

  /** The reply is true: told of a grant or an extension, the connection is the writer, under
      the lease it was told; refused an acquire, some other connection is; and refused a
      renewal, it does not hold the lease it named. */
  lemma ReplyIsTrue(h: Holder, c: Connection, r: LeaseRequest, now: int, ttl: int, drawn: LeaseId)
    requires ttl > 0
    ensures var h', told := Served(h, c, r, now, ttl, drawn), Told(h, c, r, now, ttl, drawn);
      && (told.Granted? ==> Holds(h', c, told.leaseId, now))
      && (told.Extended? ==> r.Renew? && Holds(h', c, r.leaseId, now))
      && (told.HeldBy? ==> h' == h && Live(h, now) && h.connection != c && h.clientName == told.clientName)
      && (told.NotYours? ==> r.Renew? && h' == h && !Holds(h, c, r.leaseId, now))
      && (told.Cleared? ==> r.Release? && !Holds(h', c, r.leaseId, now))
  {}

  /** Who holds what, and until when, after a request: an acquire that no other live holder
      stands in the way of gives or refreshes a lease for exactly `ttl` more, a renewal
      extends exactly the lease it names, a release ends exactly that one, and anything else
      stays as it was. */
  lemma HoldsAfter(h: Holder, c: Connection, r: LeaseRequest, now: int, ttl: int, drawn: LeaseId, d: Connection,
          id: LeaseId, t: int)
    requires t >= now
    ensures var held', held := Holds(Served(h, c, r, now, ttl, drawn), d, id, t), Holds(h, d, id, t);
      match r
      case Acquire(_) =>
        var granted := if Live(h, now) then h.leaseId else drawn;
        held' <==> if Live(h, now) && h.connection != c then held else d == c && id == granted && t < now + ttl
      case Renew(named) => held' <==> if Holds(h, c, named, now) then d == c && id == named && t < now + ttl else held
      case Release(named) => held' <==> held && !(d == c && id == named)
  {}

  /** When a connection goes, exactly its lease goes. */
  lemma HoldsAfterDrop(h: Holder, c: Connection, d: Connection, id: LeaseId, t: int)
    ensures Holds(Dropped(h, c), d, id, t) <==> Holds(h, d, id, t) && d != c
  {}

  /** A lease that holds after some request held before it, unless it is the one just drawn. */
  lemma ServedHeldBefore(h: Holder, c: Connection, r: LeaseRequest, now: int, ttl: int, drawn: LeaseId, d: Connection,
          id: LeaseId)
    requires Holds(Served(h, c, r, now, ttl, drawn), d, id, now) && id != drawn
    ensures Holds(h, d, id, now)
  {}

  /** At any moment at most one connection is the writer. */
  lemma OneWriter(h: Holder, c: Connection, d: Connection, now: int)
    requires IsWriterOf(h, c, now) && IsWriterOf(h, d, now)
    ensures c == d
  {}
}
