/**
  The `invites` table and the query the quota check runs against it.
  The table is the sequence of its rows in insertion order; timestamps are
  whole microseconds since the Unix epoch, in UTC.
 */
module Database {
  import opened Wrappers

  /** The columns of an `invites` row other than its surrogate key `invite_id`. */
  datatype Invite = Invite(
    chatId: int,
    link: string,
    fromId: int,
    fromName: string,
    createDate: int,
    expireDate: int,
    inviteeId: Option<int>,
    inviteeName: Option<string>,
    joinedAt: Option<int>)

  /** A stored row: the key the database assigned on insert, and the columns. */
  datatype Row = Row(inviteId: int, invite: Invite)

  type Store = seq<Row>

  /** The unique constraint on `link` rejected an insert. */
  datatype StoreError = DuplicateLink(link: string)

  /** Nobody has joined through the invite yet. */
  predicate Pending(inv: Invite) {
    inv.inviteeId.None?
  }

  /** `Invite(...)`: the requester's columns are set, the invitee's columns stay `NULL`. */
  function NewInvite(chatId: int, link: string, fromId: int, fromName: string, createDate: int, expireDate: int): (inv: Invite)
    ensures Pending(inv) && inv.inviteeName.None? && inv.joinedAt.None?
    ensures inv.chatId == chatId && inv.link == link && inv.expireDate == expireDate
    ensures inv.fromId == fromId && inv.fromName == fromName && inv.createDate == createDate
  {
    Invite(chatId, link, fromId, fromName, createDate, expireDate, None, None, None)
  }

  /**
    What the table guarantees about itself: keys are positive and grow with
    insertion order (no row is ever deleted), and no two rows share a link.
   */
  predicate WellFormed(store: Store) {
    && (forall i :: 0 <= i < |store| ==> store[i].inviteId >= 1)
    && (forall i, j :: 0 <= i < j < |store| ==> store[i].inviteId < store[j].inviteId)
    && (forall i, j :: 0 <= i < j < |store| ==> store[i].invite.link != store[j].invite.link)
  }

  predicate LinkTaken(store: Store, link: string) {
    exists i :: 0 <= i < |store| && store[i].invite.link == link
  }

  /** The largest key in use, or 0 for an empty table. */
  function MaxId(store: Store): (m: int)
    ensures m >= 0
    ensures forall i :: 0 <= i < |store| ==> store[i].inviteId <= m
  {
    if |store| == 0 then 0
    else
      var m := MaxId(store[..|store| - 1]);
      var last := store[|store| - 1].inviteId;
      if last > m then last else m
  }

  /** Insertion under the unique constraint on `link`; the new row gets the next key. */
  function Insert(store: Store, inv: Invite): (r: Result<Store, StoreError>)
    ensures r.Failure? <==> LinkTaken(store, inv.link)
    ensures r.Failure? ==> r.error == DuplicateLink(inv.link)
    ensures r.Success? ==> |r.value| == |store| + 1 && r.value[..|store|] == store
    ensures r.Success? ==> r.value[|store|].invite == inv
    ensures r.Success? ==> forall i :: 0 <= i < |store| ==> store[i].inviteId < r.value[|store|].inviteId
    ensures r.Success? ==> forall i :: 0 <= i < |store| ==> r.value[i].invite.link != inv.link
    ensures r.Success? && WellFormed(store) ==> WellFormed(r.value)
  {
    if LinkTaken(store, inv.link) then Failure(DuplicateLink(inv.link))
    else Success(store + [Row(MaxId(store) + 1, inv)])
  }

  /**
    The filter of `query_invites_for_user`: the row is for `chatId`, was
    requested by `userId`, expires strictly after `now` (the database's
    clock), and nobody has joined through it.
   */
  predicate Active(row: Row, chatId: int, userId: int, now: int) {
    && row.invite.chatId == chatId
    && row.invite.fromId == userId
    && row.invite.expireDate > now
    && row.invite.inviteeId.None?
  }

  /**
    A row counts for one (chat, user) pair at most, only while it is pending,
    and, under the instant comparison of this model, stops counting at the
    instant it expires.
   */
  lemma ActiveForOnePairUntilExpiry(row: Row, chatId: int, userId: int, now: int)
    requires Active(row, chatId, userId, now)
    ensures forall c, u :: Active(row, c, u, now) ==> c == chatId && u == userId
    ensures Pending(row.invite)
    ensures forall t :: now <= t < row.invite.expireDate ==> Active(row, chatId, userId, t)
    ensures !Active(row, chatId, userId, row.invite.expireDate)
  {
  }

  /** `query_invites_for_user(chatId, userId)` evaluated at time `now`, ordered by `invite_id`. */
  function ActiveInvites(store: Store, chatId: int, userId: int, now: int): (q: seq<Row>)
    ensures |q| <= |store|
    ensures forall row :: row in q <==> row in store && Active(row, chatId, userId, now)
    ensures WellFormed(store) ==> forall i, j :: 0 <= i < j < |q| ==> q[i].inviteId < q[j].inviteId
  {
    if |store| == 0 then []
    else
      var prefix := store[..|store| - 1];
      var last := store[|store| - 1];
      var q := ActiveInvites(prefix, chatId, userId, now);
      assert store == prefix + [last];
      assert WellFormed(store) ==> forall k :: 0 <= k < |q| ==> q[k].inviteId < last.inviteId by {
        if WellFormed(store) {
          forall k | 0 <= k < |q|
            ensures q[k].inviteId < last.inviteId
          {
            assert q[k] in q;
            assert q[k] in prefix;
            var i :| 0 <= i < |prefix| && prefix[i] == q[k];
            assert store[i] == q[k];
          }
        }
      }
      if Active(last, chatId, userId, now) then q + [last] else q
  }

  /** The quota count: `query_invites_for_user(chatId, userId).count()` at time `now`. */
  function Count(store: Store, chatId: int, userId: int, now: int): (n: nat)
    ensures n <= |store|
    ensures n == 0 <==> forall i :: 0 <= i < |store| ==> !Active(store[i], chatId, userId, now)
  {
    var q := ActiveInvites(store, chatId, userId, now);
    assert |q| > 0 ==> q[0] in store;
    |q|
  }

  /** Appending one row raises each count by one exactly when that row is active for it. */
  lemma CountAppend(store: Store, row: Row, chatId: int, userId: int, now: int)
    ensures Count(store + [row], chatId, userId, now)
         == Count(store, chatId, userId, now) + (if Active(row, chatId, userId, now) then 1 else 0)
  {
    assert (store + [row])[..|store|] == store;
  }

  /** Counting distributes over a table split into two parts. */
  lemma {:induction false} CountConcat(a: Store, b: Store, chatId: int, userId: int, now: int)
    ensures Count(a + b, chatId, userId, now) == Count(a, chatId, userId, now) + Count(b, chatId, userId, now)
  {
    if |b| == 0 {
      assert a + b == a;
    } else {
      var b' := b[..|b| - 1];
      var last := b[|b| - 1];
      assert b == b' + [last];
      assert a + b == (a + b') + [last];
      CountConcat(a, b', chatId, userId, now);
      CountAppend(a + b', last, chatId, userId, now);
      CountAppend(b', last, chatId, userId, now);
    }
  }

  /** The count is the number of positions in the table that hold a row active for the pair. */
  lemma {:induction false} CountIsNumberOfActivePositions(store: Store, chatId: int, userId: int, now: int)
    ensures Count(store, chatId, userId, now) == |set i | 0 <= i < |store| && Active(store[i], chatId, userId, now)|
  {
    var positions := set i | 0 <= i < |store| && Active(store[i], chatId, userId, now);
    if |store| == 0 {
      assert positions == {};
    } else {
      var prefix := store[..|store| - 1];
      var last := store[|store| - 1];
      assert store == prefix + [last];
      CountIsNumberOfActivePositions(prefix, chatId, userId, now);
      CountAppend(prefix, last, chatId, userId, now);
      var before := set i | 0 <= i < |prefix| && Active(prefix[i], chatId, userId, now);
      if Active(last, chatId, userId, now) {
        assert positions == before + {|prefix|};
      } else {
        assert positions == before;
      }
    }
  }

  /** Rows for another chat or another requester never change the count of a (chat, user) pair. */
  lemma {:induction false} CountIgnoresOtherPairs(store: Store, others: Store, chatId: int, userId: int, now: int)
    requires forall i :: 0 <= i < |others| ==> others[i].invite.chatId != chatId || others[i].invite.fromId != userId
    ensures Count(store + others, chatId, userId, now) == Count(store, chatId, userId, now)
  {
    if |others| > 0 {
      var rest := others[..|others| - 1];
      var last := others[|others| - 1];
      assert others == rest + [last];
      assert store + others == (store + rest) + [last];
      CountIgnoresOtherPairs(store, rest, chatId, userId, now);
      CountAppend(store + rest, last, chatId, userId, now);
    } else {
      assert store + others == store;
    }
  }

  /** A row that expired at or before `now` is invisible to the count wherever it sits in the table. */
  lemma ExpiredNeverCounted(before: Store, row: Row, after: Store, chatId: int, userId: int, now: int)
    requires row.invite.expireDate <= now
    ensures Count(before + [row] + after, chatId, userId, now) == Count(before + after, chatId, userId, now)
  {
    CountConcat(before + [row], after, chatId, userId, now);
    CountConcat(before, after, chatId, userId, now);
    CountAppend(before, row, chatId, userId, now);
  }

  /** As the database clock advances, counts can only fall: invites expire, none revive. */
  lemma {:induction false} CountFallsAsTimePasses(store: Store, chatId: int, userId: int, earlier: int, later: int)
    requires earlier <= later
    ensures Count(store, chatId, userId, later) <= Count(store, chatId, userId, earlier)
  {
    if |store| > 0 {
      var prefix := store[..|store| - 1];
      var last := store[|store| - 1];
      assert store == prefix + [last];
      CountFallsAsTimePasses(prefix, chatId, userId, earlier, later);
      CountAppend(prefix, last, chatId, userId, earlier);
      CountAppend(prefix, last, chatId, userId, later);
    }
  }

  /**
    Storing a freshly constructed invite of `userId` for `chatId` raises that
    pair's count by one if it expires after `now`, and leaves it unchanged
    otherwise.
   */
  lemma InsertNewInviteCount(store: Store, chatId: int, userId: int, link: string, fromName: string, createDate: int, expireDate: int, now: int)
    requires !LinkTaken(store, link)
    ensures var r := Insert(store, NewInvite(chatId, link, userId, fromName, createDate, expireDate));
      r.Success? && Count(r.value, chatId, userId, now) == Count(store, chatId, userId, now) + (if expireDate > now then 1 else 0)
  {
    var inv := NewInvite(chatId, link, userId, fromName, createDate, expireDate);
    var r := Insert(store, inv);
    assert r.value == store + [r.value[|store|]];
    CountAppend(store, r.value[|store|], chatId, userId, now);
  }
}
