/**
 * server/routes/familyGroups.js: family groups with members and roles,
 * invitations with a status and an expiry, and notifications with recipients
 * and the list of members who read them.
 *
 * The three stored collections are the fields of `FamilyStore`; each route
 * handler is a method (or, for the read-only listings, a function) on it.
 * The current time and the records that db/schema.js would construct (ids,
 * the new group, an invitation's expiry) are parameters. A missing string in
 * a request is the empty string, and a handler's answer is its HTTP status.
 */
module FamilyGroups {
  import opened Common

  datatype Status = Ok | Created | BadRequest | Forbidden | NotFound | ServerError

  datatype Prefs = Prefs(eventCreated: bool, eventUpdated: bool, eventDeleted: bool, emailNotifications: bool)

  /** The `preferences` object of a request: a field left out is `None`. */
  datatype PrefsPatch = PrefsPatch(
    eventCreated: Option<bool>, eventUpdated: Option<bool>, eventDeleted: Option<bool>, emailNotifications: Option<bool>)

  const AllOn := Prefs(true, true, true, true)

  datatype Member = Member(email: string, name: string, role: string, joinedAt: int, prefs: Prefs)

  datatype Group = Group(id: string, name: string, description: string, members: seq<Member>, updatedAt: int)

  datatype InvitationStatus = Pending | Accepted | Declined

  datatype Invitation = Invitation(
    id: string, groupId: string, groupName: string, invitedBy: string, invitedEmail: string,
    status: InvitationStatus, expiresAt: int)

  /** A notification's `data`: the member's name, or the event sent with `/notify`. */
  datatype Payload = MemberName(name: string) | EventData(data: string)

  datatype Notification = Notification(
    id: string, groupId: string, kind: string, sender: string, data: Payload,
    recipients: seq<string>, readBy: seq<string>, createdAt: int)

  // ---- lookups ---------------------------------------------------------

  /** `allGroups.findIndex(g => g.id === id)`; `find` picks the same group. */
  function FindGroup(gs: seq<Group>, id: string): (r: Option<nat>)
    ensures r.None? <==> forall j :: 0 <= j < |gs| ==> gs[j].id != id
    ensures r.Some? ==> r.value < |gs| && gs[r.value].id == id && forall j :: 0 <= j < r.value ==> gs[j].id != id
  {
    FirstIndex(gs, (g: Group) => g.id == id)
  }

  /** `group.members.find(m => m.email === email)`, by position. */
  function FindMember(ms: seq<Member>, email: string): (r: Option<nat>)
    ensures r.None? <==> forall j :: 0 <= j < |ms| ==> ms[j].email != email
    ensures r.Some? ==> r.value < |ms| && ms[r.value].email == email && forall j :: 0 <= j < r.value ==> ms[j].email != email
  {
    FirstIndex(ms, (m: Member) => m.email == email)
  }

  function FindInvitation(invs: seq<Invitation>, id: string): (r: Option<nat>)
    ensures r.None? <==> forall j :: 0 <= j < |invs| ==> invs[j].id != id
    ensures r.Some? ==> r.value < |invs| && invs[r.value].id == id && forall j :: 0 <= j < r.value ==> invs[j].id != id
  {
    FirstIndex(invs, (inv: Invitation) => inv.id == id)
  }

  function FindNotification(ns: seq<Notification>, id: string): (r: Option<nat>)
    ensures r.None? <==> forall j :: 0 <= j < |ns| ==> ns[j].id != id
    ensures r.Some? ==> r.value < |ns| && ns[r.value].id == id && forall j :: 0 <= j < r.value ==> ns[j].id != id
  {
    FirstIndex(ns, (n: Notification) => n.id == id)
  }

  predicate HasMember(g: Group, email: string)
  {
    exists m :: m in g.members && m.email == email
  }

  /** The first member with this email exists and has role "admin". */
  predicate IsAdmin(g: Group, email: string)
  {
    var mi := FindMember(g.members, email);
    mi.Some? && g.members[mi.value].role == "admin"
  }

  predicate IsAdminMember(m: Member) { m.role == "admin" }

  function Admins(ms: seq<Member>): seq<Member>
  {
    Filter(ms, IsAdminMember)
  }

  function Emails(ms: seq<Member>): (r: seq<string>)
    ensures |r| == |ms| && forall i :: 0 <= i < |ms| ==> r[i] == ms[i].email
  {
    seq(|ms|, i requires 0 <= i < |ms| => ms[i].email)
  }

  lemma EmailsMembership(ms: seq<Member>)
    ensures forall e :: e in Emails(ms) <==> exists m :: m in ms && m.email == e
  {
    var r := Emails(ms);
    forall e | e in r
      ensures exists m :: m in ms && m.email == e
    {
      var i :| 0 <= i < |r| && r[i] == e;
      assert ms[i] in ms;
    }
    forall m | m in ms
      ensures m.email in r
    {
      var i :| 0 <= i < |ms| && ms[i] == m;
      assert r[i] == m.email;
    }
  }

  // ---- pure rules ------------------------------------------------------

  /** `email.split('@')[0]`: everything before the first '@'. */
  function LocalPart(email: string): (r: string)
    ensures r <= email && '@' !in r
    ensures |r| < |email| ==> email[|r|] == '@'
  {
    if email == [] || email[0] == '@' then [] else [email[0]] + LocalPart(email[1..])
  }

  /** The member record an accepted invitation adds. */
  function Joined(userEmail: string, userName: string, now: int): (m: Member)
    ensures m.email == userEmail && m.role == "member" && m.prefs == AllOn
    ensures userName != "" ==> m.name == userName
    ensures userName == "" ==> m.name == LocalPart(userEmail) && m.name <= userEmail && '@' !in m.name
  {
    Member(userEmail, if userName != "" then userName else LocalPart(userEmail), "member", now, AllOn)
  }

  /** Whether a member is notified of a change of this kind made by `sender`. */
  predicate Wants(sender: string, kind: string, m: Member)
  {
    m.email != sender
    && if kind == "event_created" then m.prefs.eventCreated
       else if kind == "event_updated" then m.prefs.eventUpdated
       else if kind == "event_deleted" then m.prefs.eventDeleted
       else true
  }

  /** The `/notify` recipients: the sender's fellow members who want this kind of notification. */
  function Recipients(ms: seq<Member>, sender: string, kind: string): (r: seq<string>)
    ensures |r| <= |ms| && sender !in r
    ensures forall e :: e in r <==> exists m :: m in ms && m.email == e && Wants(sender, kind, m)
  {
    if ms == [] then []
    else
      var rest := Recipients(ms[1..], sender, kind);
      assert forall m :: m in ms <==> m == ms[0] || m in ms[1..];
      if Wants(sender, kind, ms[0]) then [ms[0].email] + rest else rest
  }

  /** `members.map(m => m.email).filter(e => e !== sender)`. */
  function Others(ms: seq<Member>, sender: string): (r: seq<string>)
    ensures |r| <= |ms| && sender !in r
    ensures forall e :: e in r <==> e != sender && exists m :: m in ms && m.email == e
  {
    if ms == [] then []
    else
      var rest := Others(ms[1..], sender);
      assert forall m :: m in ms <==> m == ms[0] || m in ms[1..];
      if ms[0].email != sender then [ms[0].email] + rest else rest
  }

  /** A kind of change without a preference of its own reaches every other member, in member order. */
  lemma {:induction false} UnknownKindReachesEveryone(ms: seq<Member>, sender: string, kind: string)
    requires kind != "event_created" && kind != "event_updated" && kind != "event_deleted"
    ensures Recipients(ms, sender, kind) == Others(ms, sender)
  {
    if ms != [] {
      UnknownKindReachesEveryone(ms[1..], sender, kind);
    }
  }

  /** The `{...old, ...patch}` merge of notification preferences. */
  function Merge(p: Prefs, patch: PrefsPatch): (r: Prefs)
    ensures patch.eventCreated.Some? ==> r.eventCreated == patch.eventCreated.value
    ensures patch.eventCreated.None? ==> r.eventCreated == p.eventCreated
    ensures patch.eventUpdated.Some? ==> r.eventUpdated == patch.eventUpdated.value
    ensures patch.eventUpdated.None? ==> r.eventUpdated == p.eventUpdated
    ensures patch.eventDeleted.Some? ==> r.eventDeleted == patch.eventDeleted.value
    ensures patch.eventDeleted.None? ==> r.eventDeleted == p.eventDeleted
    ensures patch.emailNotifications.Some? ==> r.emailNotifications == patch.emailNotifications.value
    ensures patch.emailNotifications.None? ==> r.emailNotifications == p.emailNotifications
  {
    Prefs(
      if patch.eventCreated.Some? then patch.eventCreated.value else p.eventCreated,
      if patch.eventUpdated.Some? then patch.eventUpdated.value else p.eventUpdated,
      if patch.eventDeleted.Some? then patch.eventDeleted.value else p.eventDeleted,
      if patch.emailNotifications.Some? then patch.emailNotifications.value else p.emailNotifications)
  }

  /** Sending the same preferences twice changes nothing the second time. */
  lemma MergeIdempotent(p: Prefs, patch: PrefsPatch)
    ensures Merge(Merge(p, patch), patch) == Merge(p, patch)
  {
  }

  predicate IsUnreadBy(n: Notification, user: string)
  {
    user in n.recipients && user !in n.readBy
  }

  /** Adding the reader only if absent (`readBy.push` behind `includes`). */
  function WithReader(n: Notification, user: string): (r: Notification)
    ensures r == n.(readBy := r.readBy)
    ensures user in r.readBy && !IsUnreadBy(r, user)
    ensures multiset(r.readBy)[user] == if user in n.readBy then multiset(n.readBy)[user] else 1
    ensures forall v :: v != user ==> multiset(r.readBy)[v] == multiset(n.readBy)[v]
  {
    if user in n.readBy then n else n.(readBy := n.readBy + [user])
  }

  /** Marking as read twice is the same as once. */
  lemma MarkReadIdempotent(n: Notification, user: string)
    ensures WithReader(WithReader(n, user), user) == WithReader(n, user)
  {
  }

  predicate NewestFirst(ns: seq<Notification>)
  {
    forall i, j :: 0 <= i < j < |ns| ==> ns[i].createdAt >= ns[j].createdAt
  }

  function InsertByNewest(x: Notification, ns: seq<Notification>): (r: seq<Notification>)
    requires NewestFirst(ns)
    ensures NewestFirst(r) && multiset(r) == multiset(ns) + multiset{x}
    ensures |r| == |ns| + 1
    ensures r[0] == x || (ns != [] && r[0] == ns[0])
  {
    if ns == [] || x.createdAt >= ns[0].createdAt then [x] + ns
    else
      var rest := InsertByNewest(x, ns[1..]);
      assert ns == [ns[0]] + ns[1..];
      [ns[0]] + rest
  }

  /** `sort((a, b) => b.createdAt - a.createdAt)`, as a stable insertion sort. */
  function SortByNewest(ns: seq<Notification>): (r: seq<Notification>)
    ensures NewestFirst(r) && multiset(r) == multiset(ns) && |r| == |ns|
  {
    if ns == [] then []
    else
      assert ns == [ns[0]] + ns[1..];
      InsertByNewest(ns[0], SortByNewest(ns[1..]))
  }

  const UnreadLimit := 20

  /** The `k` newest of `ns` (`sort` then `slice(0, k)`); all of them when there are at most `k`. */
  function Newest(ns: seq<Notification>, k: nat): (r: seq<Notification>)
    ensures |r| == Min(k, |ns|) && NewestFirst(r)
    ensures multiset(r) <= multiset(ns)
    ensures forall i, n :: 0 <= i < |r| && n in multiset(ns) - multiset(r) ==> n.createdAt <= r[i].createdAt
    ensures forall n :: n in r ==> n in ns
    ensures |ns| <= k ==> forall n :: n in ns ==> n in r
  {
    var r := SortByNewest(ns)[..Min(k, |ns|)];
    NewestPrefix(ns, SortByNewest(ns), Min(k, |ns|));
    r
  }

  /**
   * A prefix of `ns` sorted newest first is a sub-multiset of `ns`, and
   * nothing left after it is newer than anything in it.
   */
  lemma NewestPrefix(ns: seq<Notification>, s: seq<Notification>, m: nat)
    requires NewestFirst(s) && multiset(s) == multiset(ns) && m <= |s|
    ensures NewestFirst(s[..m])
    ensures multiset(s[..m]) <= multiset(ns)
    ensures forall i, n :: 0 <= i < m && n in multiset(ns) - multiset(s[..m]) ==> n.createdAt <= s[..m][i].createdAt
    ensures forall n :: n in s[..m] ==> n in ns
    ensures m == |s| ==> forall n :: n in ns ==> n in s[..m]
  {
    assert s == s[..m] + s[m..];
    assert multiset(s) == multiset(s[..m]) + multiset(s[m..]);
    forall i, n | 0 <= i < m && n in multiset(ns) - multiset(s[..m])
      ensures n.createdAt <= s[..m][i].createdAt
    {
      assert n in multiset(s[m..]);
      var j :| 0 <= j < |s[m..]| && s[m..][j] == n;
      assert s[m + j] == n;
    }
    forall n | n in s[..m] ensures n in ns {
      assert n in multiset(s);
    }
    forall n | n in ns && m == |s| ensures n in s[..m] {
      assert n in multiset(s);
      assert s[..m] == s;
    }
  }

  /** The notifications addressed to the user that the user has not read, in stored order. */
  function UnreadIn(ns: seq<Notification>, user: string): (r: seq<Notification>)
    ensures IsSubsequence(r, ns)
    ensures forall n :: n in r <==> n in ns && IsUnreadBy(n, user)
  {
    Filter(ns, n => IsUnreadBy(n, user))
  }

  /** Only the first admin can be removed, and only when another admin remains: with distinct emails an admin survives. */
  predicate DistinctEmails(ms: seq<Member>)
  {
    forall i, j :: 0 <= i < j < |ms| ==> ms[i].email != ms[j].email
  }

  predicate HasEmail(email: string, m: Member) { m.email == email }
  predicate LacksEmail(email: string, m: Member) { m.email != email }

  function WithoutMember(ms: seq<Member>, email: string): (r: seq<Member>)
    ensures IsSubsequence(r, ms)
    ensures forall m :: m in r <==> m in ms && m.email != email
  {
    Filter(ms, m => LacksEmail(email, m))
  }

  /**
   * The last-admin guard keeps a group administered: removing the member
   * with this email, when the guard lets it through and emails are distinct,
   * leaves at least one admin.
   */
  lemma AdminSurvivesRemoval(ms: seq<Member>, email: string)
    requires DistinctEmails(ms)
    requires Admins(ms) != []
    requires FindMember(ms, email).Some?
    requires !(ms[FindMember(ms, email).value].role == "admin" && |Admins(ms)| == 1)
    ensures Admins(WithoutMember(ms, email)) != []
  {
    var k := FindMember(ms, email).value;
    var admins := Admins(ms);
    var a: Member;
    if ms[k].role == "admin" {
      assert |admins| >= 2;
      assert admins[0] in admins && admins[1] in admins;
      assert admins[0] != admins[1] by {
        AdminsDistinct(ms);
      }
      a := if admins[0].email != email then admins[0] else admins[1];
      if a.email == email {
        AdminsDistinct(ms);
        assert false;
      }
    } else {
      a := admins[0];
      assert a in admins;
    }
    assert a in WithoutMember(ms, email);
    assert a.role == "admin";
    FilterKeepsSome(WithoutMember(ms, email), IsAdminMember, a);
  }

  /** Distinct emails make the admins' emails distinct too. */
  lemma AdminsDistinct(ms: seq<Member>)
    requires DistinctEmails(ms)
    ensures |Admins(ms)| >= 2 ==> Admins(ms)[0].email != Admins(ms)[1].email
  {
    var admins := Admins(ms);
    if |admins| >= 2 {
      DistinctOfSubsequence(admins, ms);
    }
  }

  lemma {:induction false} DistinctOfSubsequence(r: seq<Member>, s: seq<Member>)
    requires IsSubsequence(r, s) && DistinctEmails(s)
    ensures DistinctEmails(r)
    decreases |s|
  {
    if r != [] && s != [] {
      if r[0] == s[0] {
        DistinctOfSubsequence(r[1..], s[1..]);
        assert r[0] in s && r[0] == s[0];
        forall j | 0 < j < |r|
          ensures r[0].email != r[j].email
        {
          assert r[j] in r[1..];
          SubsequenceMembers(r[1..], s[1..]);
          var k :| 0 <= k < |s[1..]| && s[1..][k] == r[j];
          assert s[k + 1] == r[j];
        }
      } else {
        DistinctOfSubsequence(r, s[1..]);
      }
    }
  }

  lemma {:induction false} SubsequenceMembers(r: seq<Member>, s: seq<Member>)
    requires IsSubsequence(r, s)
    ensures forall x :: x in r ==> x in s
    decreases |s|
  {
    if r != [] && s != [] {
      assert r == [r[0]] + r[1..];
      if r[0] == s[0] {
        SubsequenceMembers(r[1..], s[1..]);
      } else {
        SubsequenceMembers(r, s[1..]);
      }
    }
  }

  lemma FilterKeepsSome(s: seq<Member>, p: Member -> bool, x: Member)
    requires x in s && p(x)
    ensures Filter(s, p) != []
  {
    assert x in Filter(s, p);
  }

  // ---- the store -------------------------------------------------------

  predicate PendingFor(groupId: string, email: string, inv: Invitation)
  {
    inv.groupId == groupId && inv.invitedEmail == email && inv.status == Pending
  }

  /** At most one pending invitation per group and invitee. */
  predicate OnePendingPerInvitee(invs: seq<Invitation>)
  {
    forall i, j :: 0 <= i < j < |invs| && invs[i].status == Pending && invs[j].status == Pending ==>
      invs[i].groupId != invs[j].groupId || invs[i].invitedEmail != invs[j].invitedEmail
  }

  class FamilyStore {
    var groups: seq<Group>
    var invitations: seq<Invitation>
    var notifications: seq<Notification>

    constructor (groups: seq<Group>, invitations: seq<Invitation>, notifications: seq<Notification>)
      ensures this.groups == groups && this.invitations == invitations && this.notifications == notifications
    {
      this.groups := groups;
      this.invitations := invitations;
      this.notifications := notifications;
    }

    /** `GET /`: the groups the user belongs to, in stored order; 400 (`None`) without an email. */
    function ListGroups(userEmail: string): (r: Option<seq<Group>>)
      reads this
      ensures r.None? <==> userEmail == ""
      ensures r.Some? ==> IsSubsequence(r.value, groups)
      ensures r.Some? ==> forall g :: g in r.value <==> g in groups && HasMember(g, userEmail)
    {
      if userEmail == "" then None else Some(Filter(groups, g => HasMember(g, userEmail)))
    }

    /** `POST /`: `made` is the group db/schema.js builds from the request. */
    method Create(name: string, description: string, userEmail: string, userName: string, made: Group) returns (s: Status)
      modifies this
      ensures name == "" || userEmail == "" || userName == "" ==> s == BadRequest && groups == old(groups)
      ensures name != "" && userEmail != "" && userName != "" ==> s == Created && groups == old(groups) + [made]
      ensures invitations == old(invitations) && notifications == old(notifications)
    {
      if name == "" || userEmail == "" || userName == "" {
        return BadRequest;
      }
      groups := groups + [made];
      s := Created;
    }

    /**
     * `PUT /:groupId`: only an admin may edit. The name changes only to a
     * non-empty one, the description whenever one was sent (`None`: left out).
     */
    method Update(groupId: string, name: string, description: Option<string>, userEmail: string, now: int) returns (s: Status)
      modifies this
      ensures FindGroup(old(groups), groupId).None? ==> s == NotFound && groups == old(groups)
      ensures FindGroup(old(groups), groupId).Some? ==>
                var gi := FindGroup(old(groups), groupId).value;
                var g := old(groups)[gi];
                if !IsAdmin(g, userEmail) then s == Forbidden && groups == old(groups)
                else
                  && s == Ok
                  && groups == old(groups)[gi := g.(name := if name != "" then name else g.name,
                                                    description := if description.Some? then description.value else g.description,
                                                    updatedAt := now)]
      ensures s != Ok ==> groups == old(groups)
      ensures invitations == old(invitations) && notifications == old(notifications)
    {
      var found := FindGroup(groups, groupId);
      if found.None? {
        return NotFound;
      }
      var gi := found.value;
      var g := groups[gi];
      if !IsAdmin(g, userEmail) {
        return Forbidden;
      }
      if name != "" {
        g := g.(name := name);
      }
      if description.Some? {
        g := g.(description := description.value);
      }
      g := g.(updatedAt := now);
      groups := groups[gi := g];
      s := Ok;
    }

    /** `DELETE /:groupId`: an admin of the first group with this id removes every group with it. */
    method Delete(groupId: string, userEmail: string) returns (s: Status)
      modifies this
      ensures userEmail == "" ==> s == BadRequest
      ensures userEmail != "" && FindGroup(old(groups), groupId).None? ==> s == NotFound
      ensures userEmail != "" && FindGroup(old(groups), groupId).Some? ==>
                if IsAdmin(old(groups)[FindGroup(old(groups), groupId).value], userEmail) then s == Ok else s == Forbidden
      ensures s == Ok ==> IsSubsequence(groups, old(groups))
                          && forall g :: g in groups <==> g in old(groups) && g.id != groupId
      ensures s != Ok ==> groups == old(groups)
      ensures invitations == old(invitations) && notifications == old(notifications)
    {
      if userEmail == "" {
        return BadRequest;
      }
      var found := FindGroup(groups, groupId);
      if found.None? {
        return NotFound;
      }
      if !IsAdmin(groups[found.value], userEmail) {
        return Forbidden;
      }
      groups := Filter(groups, (g: Group) => g.id != groupId);
      s := Ok;
    }

    /**
     * `POST /:groupId/invite`: an admin invites someone who is neither a
     * member nor already holding a pending invitation to this group (expired
     * or not). `id` and `expiresAt` are what db/schema.js assigns.
     */
    method Invite(groupId: string, invitedEmail: string, userEmail: string, id: string, expiresAt: int) returns (s: Status)
      modifies this
      ensures invitedEmail == "" ==> s == BadRequest
      ensures invitedEmail != "" && FindGroup(old(groups), groupId).None? ==> s == NotFound
      ensures invitedEmail != "" && FindGroup(old(groups), groupId).Some? ==>
                var g := old(groups)[FindGroup(old(groups), groupId).value];
                if !IsAdmin(g, userEmail) then s == Forbidden
                else if HasMember(g, invitedEmail) then s == BadRequest
                else if exists inv :: inv in old(invitations) && PendingFor(groupId, invitedEmail, inv) then s == BadRequest
                else s == Created
                     && invitations == old(invitations) + [Invitation(id, groupId, g.name, userEmail, invitedEmail, Pending, expiresAt)]
      ensures s != Created ==> invitations == old(invitations)
      ensures OnePendingPerInvitee(old(invitations)) ==> OnePendingPerInvitee(invitations)
      ensures groups == old(groups) && notifications == old(notifications)
    {
      if invitedEmail == "" {
        return BadRequest;
      }
      var found := FindGroup(groups, groupId);
      if found.None? {
        return NotFound;
      }
      var g := groups[found.value];
      if !IsAdmin(g, userEmail) {
        return Forbidden;
      }
      if FindMember(g.members, invitedEmail).Some? {
        assert g.members[FindMember(g.members, invitedEmail).value] in g.members;
        return BadRequest;
      }
      var pending := FirstIndex(invitations, inv => PendingFor(groupId, invitedEmail, inv));
      if pending.Some? {
        assert invitations[pending.value] in invitations;
        return BadRequest;
      }
      invitations := invitations + [Invitation(id, groupId, g.name, userEmail, invitedEmail, Pending, expiresAt)];
      s := Created;
    }

    /** `GET /invitations/pending`: the user's pending invitations that expire strictly after `now`. */
    function PendingInvitations(userEmail: string, now: int): (r: Option<seq<Invitation>>)
      reads this
      ensures r.None? <==> userEmail == ""
      ensures r.Some? ==> IsSubsequence(r.value, invitations)
      ensures r.Some? ==> forall inv :: inv in r.value <==>
                inv in invitations && inv.invitedEmail == userEmail && inv.status == Pending && inv.expiresAt > now
    {
      if userEmail == "" then None
      else Some(Filter(invitations, (inv: Invitation) => inv.invitedEmail == userEmail && inv.status == Pending && inv.expiresAt > now))
    }

    /**
     * `POST /invitations/:id/accept`: the invitee joins the group as a
     * member, the invitation becomes accepted, and the other members are told.
     * An invitation is refused only once `expiresAt < now`.
     */
    method Accept(invitationId: string, userEmail: string, userName: string, now: int, notificationId: string) returns (s: Status)
      modifies this
      ensures FindInvitation(old(invitations), invitationId).None? ==> s == NotFound
      ensures FindInvitation(old(invitations), invitationId).Some? ==>
                var ii := FindInvitation(old(invitations), invitationId).value;
                var inv := old(invitations)[ii];
                if inv.invitedEmail != userEmail then s == Forbidden
                else if inv.status != Pending then s == BadRequest
                else if inv.expiresAt < now then s == BadRequest
                else if FindGroup(old(groups), inv.groupId).None? then s == NotFound
                else
                  var gi := FindGroup(old(groups), inv.groupId).value;
                  var g := old(groups)[gi];
                  var members := g.members + [Joined(userEmail, userName, now)];
                  && s == Ok
                  && groups == old(groups)[gi := g.(members := members)]
                  && invitations == old(invitations)[ii := inv.(status := Accepted)]
                  && notifications == old(notifications) + [Notification(notificationId, g.id, "member_joined", userEmail,
                       MemberName(if userName != "" then userName else userEmail), Others(members, userEmail), [], now)]
      ensures s != Ok ==> groups == old(groups) && invitations == old(invitations) && notifications == old(notifications)
      ensures OnePendingPerInvitee(old(invitations)) ==> OnePendingPerInvitee(invitations)
    {
      var found := FindInvitation(invitations, invitationId);
      if found.None? {
        return NotFound;
      }
      var ii := found.value;
      var inv := invitations[ii];
      if inv.invitedEmail != userEmail {
        return Forbidden;
      }
      if inv.status != Pending {
        return BadRequest;
      }
      if inv.expiresAt < now {
        return BadRequest;
      }
      var foundGroup := FindGroup(groups, inv.groupId);
      if foundGroup.None? {
        return NotFound;
      }
      var gi := foundGroup.value;
      var g := groups[gi];
      var members := g.members + [Joined(userEmail, userName, now)];
      groups := groups[gi := g.(members := members)];
      invitations := invitations[ii := inv.(status := Accepted)];
      notifications := notifications + [Notification(notificationId, g.id, "member_joined", userEmail,
        MemberName(if userName != "" then userName else userEmail), Others(members, userEmail), [], now)];
      s := Ok;
    }

    /** `POST /invitations/:id/decline`: the invitee declines, whatever the current status. */
    method Decline(invitationId: string, userEmail: string) returns (s: Status)
      modifies this
      ensures userEmail == "" ==> s == ServerError
      ensures userEmail != "" && FindInvitation(old(invitations), invitationId).None? ==> s == NotFound
      ensures userEmail != "" && FindInvitation(old(invitations), invitationId).Some? ==>
                var ii := FindInvitation(old(invitations), invitationId).value;
                var inv := old(invitations)[ii];
                if inv.invitedEmail != userEmail then s == Forbidden
                else s == Ok && invitations == old(invitations)[ii := inv.(status := Declined)]
      ensures s != Ok ==> invitations == old(invitations)
      ensures OnePendingPerInvitee(old(invitations)) ==> OnePendingPerInvitee(invitations)
      ensures groups == old(groups) && notifications == old(notifications)
    {
      if userEmail == "" {
        return ServerError;
      }
      var found := FindInvitation(invitations, invitationId);
      if found.None? {
        return NotFound;
      }
      var ii := found.value;
      var inv := invitations[ii];
      if inv.invitedEmail != userEmail {
        return Forbidden;
      }
      invitations := invitations[ii := inv.(status := Declined)];
      s := Ok;
    }

    /**
     * `POST /:groupId/notify`: a member tells the others who want this kind
     * of change; with nobody to tell nothing is stored. `eventData` is `None`
     * when missing.
     */
    method Notify(groupId: string, kind: string, eventData: Option<string>, userEmail: string,
                  notificationId: string, now: int) returns (s: Status)
      modifies this
      ensures kind == "" || eventData.None? ==> s == BadRequest
      ensures kind != "" && eventData.Some? && FindGroup(old(groups), groupId).None? ==> s == NotFound
      ensures kind != "" && eventData.Some? && FindGroup(old(groups), groupId).Some? ==>
                var g := old(groups)[FindGroup(old(groups), groupId).value];
                var recipients := Recipients(g.members, userEmail, kind);
                if !HasMember(g, userEmail) then s == Forbidden
                else if recipients == [] then s == Ok && notifications == old(notifications)
                else s == Ok && notifications == old(notifications) +
                       [Notification(notificationId, groupId, kind, userEmail, EventData(eventData.value), recipients, [], now)]
      ensures s != Ok ==> notifications == old(notifications)
      ensures forall n :: n in notifications && n !in old(notifications) ==> userEmail !in n.recipients && n.recipients != []
      ensures groups == old(groups) && invitations == old(invitations)
    {
      if kind == "" || eventData.None? {
        return BadRequest;
      }
      var found := FindGroup(groups, groupId);
      if found.None? {
        return NotFound;
      }
      var g := groups[found.value];
      if FindMember(g.members, userEmail).None? {
        return Forbidden;
      }
      assert g.members[FindMember(g.members, userEmail).value] in g.members;
      var recipients := Recipients(g.members, userEmail, kind);
      if recipients == [] {
        return Ok;
      }
      notifications := notifications + [Notification(notificationId, groupId, kind, userEmail, EventData(eventData.value), recipients, [], now)];
      s := Ok;
    }

    /** `GET /notifications/unread`: the 20 newest notifications the user has not read. */
    function Unread(userEmail: string): (r: Option<seq<Notification>>)
      reads this
      ensures r.None? <==> userEmail == ""
      ensures r.Some? ==> |r.value| <= UnreadLimit && NewestFirst(r.value)
      ensures r.Some? ==> forall n :: n in r.value ==> n in notifications && IsUnreadBy(n, userEmail)
      ensures r.Some? ==> multiset(r.value) <= multiset(UnreadIn(notifications, userEmail))
      ensures r.Some? ==> |r.value| == Min(UnreadLimit, |UnreadIn(notifications, userEmail)|)
      ensures r.Some? ==> forall i, n ::
                (0 <= i < |r.value| && n in multiset(UnreadIn(notifications, userEmail)) - multiset(r.value)) ==>
                  n.createdAt <= r.value[i].createdAt
      ensures r.Some? && |UnreadIn(notifications, userEmail)| <= UnreadLimit ==>
                forall n :: n in notifications && IsUnreadBy(n, userEmail) ==> n in r.value
    {
      if userEmail == "" then None
      else
        Some(Newest(UnreadIn(notifications, userEmail), UnreadLimit))
    }

    /** `POST /notifications/:id/read`: a recipient marks a notification read, at most once. */
    method MarkRead(notificationId: string, userEmail: string) returns (s: Status)
      modifies this
      ensures userEmail == "" ==> s == ServerError
      ensures userEmail != "" && FindNotification(old(notifications), notificationId).None? ==> s == NotFound
      ensures userEmail != "" && FindNotification(old(notifications), notificationId).Some? ==>
                var ni := FindNotification(old(notifications), notificationId).value;
                var n := old(notifications)[ni];
                if userEmail !in n.recipients then s == Forbidden
                else s == Ok && notifications == old(notifications)[ni := WithReader(n, userEmail)]
                     && !IsUnreadBy(notifications[ni], userEmail)
      ensures s != Ok ==> notifications == old(notifications)
      ensures groups == old(groups) && invitations == old(invitations)
    {
      if userEmail == "" {
        return ServerError;
      }
      var found := FindNotification(notifications, notificationId);
      if found.None? {
        return NotFound;
      }
      var ni := found.value;
      var n := notifications[ni];
      if userEmail !in n.recipients {
        return Forbidden;
      }
      notifications := notifications[ni := WithReader(n, userEmail)];
      s := Ok;
    }

    /** `PUT /:groupId/preferences`: the first member with this email gets the sent fields. */
    method UpdatePreferences(groupId: string, userEmail: string, patch: PrefsPatch) returns (s: Status)
      modifies this
      ensures FindGroup(old(groups), groupId).None? ==> s == NotFound
      ensures FindGroup(old(groups), groupId).Some? ==>
                var gi := FindGroup(old(groups), groupId).value;
                var g := old(groups)[gi];
                if FindMember(g.members, userEmail).None? then s == NotFound
                else
                  var mi := FindMember(g.members, userEmail).value;
                  var m := g.members[mi];
                  s == Ok && groups == old(groups)[gi := g.(members := g.members[mi := m.(prefs := Merge(m.prefs, patch))])]
      ensures s != Ok ==> groups == old(groups)
      ensures invitations == old(invitations) && notifications == old(notifications)
    {
      var found := FindGroup(groups, groupId);
      if found.None? {
        return NotFound;
      }
      var gi := found.value;
      var g := groups[gi];
      var foundMember := FindMember(g.members, userEmail);
      if foundMember.None? {
        return NotFound;
      }
      var mi := foundMember.value;
      var m := g.members[mi];
      groups := groups[gi := g.(members := g.members[mi := m.(prefs := Merge(m.prefs, patch))])];
      s := Ok;
    }

    /**
     * `DELETE /:groupId/members/:memberEmail`: a member leaves, or an admin
     * removes someone; the only admin cannot go. Removing an email that is
     * not in the group throws (500). The remaining members are told.
     */
    method RemoveMember(groupId: string, memberEmail: string, userEmail: string, notificationId: string, now: int) returns (s: Status)
      modifies this
      ensures userEmail == "" ==> s == BadRequest
      ensures userEmail != "" && FindGroup(old(groups), groupId).None? ==> s == NotFound
      ensures userEmail != "" && FindGroup(old(groups), groupId).Some? ==>
                var gi := FindGroup(old(groups), groupId).value;
                var g := old(groups)[gi];
                var current := FindMember(g.members, userEmail);
                var leaving := FindMember(g.members, memberEmail);
                if current.None? then s == Forbidden
                else if memberEmail != userEmail && g.members[current.value].role != "admin" then s == Forbidden
                else if leaving.None? then s == ServerError
                else if g.members[leaving.value].role == "admin" && |Admins(g.members)| == 1 then s == BadRequest
                else
                  var rest := WithoutMember(g.members, memberEmail);
                  && s == Ok
                  && groups == old(groups)[gi := g.(members := rest)]
                  && notifications == old(notifications) + [Notification(notificationId, groupId, "member_left", memberEmail,
                       MemberName(g.members[leaving.value].name), Emails(rest), [], now)]
      ensures s != Ok ==> groups == old(groups) && notifications == old(notifications)
      ensures forall n :: n in notifications && n !in old(notifications) ==> memberEmail !in n.recipients
      ensures invitations == old(invitations)
    {
      if userEmail == "" {
        return BadRequest;
      }
      var found := FindGroup(groups, groupId);
      if found.None? {
        return NotFound;
      }
      var gi := found.value;
      var g := groups[gi];
      var current := FindMember(g.members, userEmail);
      if current.None? {
        return Forbidden;
      }
      if memberEmail != userEmail && g.members[current.value].role != "admin" {
        return Forbidden;
      }
      var leaving := FindMember(g.members, memberEmail);
      if leaving.None? {
        // `memberToRemove.role` on undefined
        return ServerError;
      }
      if g.members[leaving.value].role == "admin" && |Admins(g.members)| == 1 {
        return BadRequest;
      }
      var rest := WithoutMember(g.members, memberEmail);
      EmailsMembership(rest);
      assert memberEmail !in Emails(rest);
      var note := Notification(notificationId, groupId, "member_left", memberEmail,
        MemberName(g.members[leaving.value].name), Emails(rest), [], now);
      groups := groups[gi := g.(members := rest)];
      notifications := notifications + [note];
      assert forall n :: n in notifications && n !in old(notifications) ==> n == note;
      s := Ok;
    }
  }
}
