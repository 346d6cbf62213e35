/** Shared workspaces of teams.go: revisions, key versions and the audit history. Requests are atomic
    (they run under the state lock) and storage does not fail; strings that the handlers trim stand
    for their trimmed form, and a character stands for a byte. */
module Workspaces {
  import opened Results
  import SyncStore

  datatype Member = Member(user: string, role: string, wrappedKey: string, joinedAt: string)

  datatype Team = Team(name: string, members: seq<Member>, keyVersion: int)

  datatype Blob = Blob(revision: int, blob: Option<string>)

  datatype Source = Server | Client

  datatype Row = Row(workspace: string, actor: string, action: string, target: string, revision: int, source: Source)

  datatype State = State(teams: map<string, Team>, blobs: map<string, Blob>, audit: seq<Row>)

  /** The accounts, and those of them that have published a key. */
  datatype Directory = Directory(users: set<string>, keys: set<string>)

  const SYNC := "workspace.sync"
  const ROTATE := "workspace.key-rotate"

  function Decimal(n: int): string
    decreases if n < 0 then 1 - n else n
  {
    if n < 0 then "-" + Decimal(-n)
    else if n < 10 then ['0' + n as char]
    else Decimal(n / 10) + ['0' + (n % 10) as char]
  }

  function MemberOf(members: seq<Member>, user: string): Option<Member>
  {
    if members == [] then None
    else if members[0].user == user then Some(members[0])
    else MemberOf(members[1..], user)
  }

  predicate IsAdminOrOwner(m: Option<Member>) { m.Some? && (m.value.role == "admin" || m.value.role == "owner") }

  predicate IsOwner(m: Option<Member>) { m.Some? && m.value.role == "owner" }

  predicate ValidRole(role: string) { role == "owner" || role == "admin" || role == "member" }

  // ----- what the handlers do -----

  function CreateStatus(name: string, wrappedKey: string): int
  {
    if name == "" || |name| > 100 || wrappedKey == "" then 400 else 201
  }

  function Created(s: State, id: string, user: string, name: string, wrappedKey: string, now: string): State
  {
    State(s.teams[id := Team(name, [Member(user, "owner", wrappedKey, now)], 1)],
          s.blobs[id := Blob(0, None)],
          s.audit + [Row(id, user, "workspace.create", name, 0, Server)])
  }

  function DeleteStatus(s: State, id: string, user: string): int
  {
    if id !in s.teams then 404 else if !IsOwner(MemberOf(s.teams[id].members, user)) then 403 else 200
  }

  function Deleted(s: State, id: string, user: string): State
    requires id in s.teams
  {
    State(s.teams - {id}, s.blobs - {id}, s.audit + [Row(id, user, "workspace.delete", s.teams[id].name, 0, Server)])
  }

  datatype Item = Item(user: string, role: string, wrappedKey: string)

  predicate ValidItem(d: Directory, item: Item)
  {
    item.user in d.users && ValidRole(item.role) && item.wrappedKey != "" && item.user in d.keys
  }

  predicate Includes(items: seq<Item>, user: string) { exists i :: 0 <= i < |items| && items[i].user == user }

  function RotateStatus(s: State, d: Directory, id: string, user: string, items: seq<Item>): int
  {
    if items == [] then 400
    else if id !in s.teams then 404
    else if !IsAdminOrOwner(MemberOf(s.teams[id].members, user)) then 403
    else if !(forall i :: 0 <= i < |items| ==> ValidItem(d, items[i])) then 400
    else if !Includes(items, user) then 400
    else 200
  }

  function Rewrapped(members: seq<Member>, item: Item, now: string): Member
  {
    var was := MemberOf(members, item.user);
    Member(item.user, item.role, item.wrappedKey, if was.Some? then was.value.joinedAt else now)
  }

  function NewMembers(members: seq<Member>, items: seq<Item>, now: string): seq<Member>
  {
    seq(|items|, i requires 0 <= i < |items| => Rewrapped(members, items[i], now))
  }

  function Rotated(s: State, id: string, user: string, items: seq<Item>, now: string): State
    requires id in s.teams
  {
    var t := s.teams[id];
    var v := t.keyVersion + 1;
    s.(teams := s.teams[id := t.(members := NewMembers(t.members, items, now), keyVersion := v)],
       audit := s.audit + [Row(id, user, ROTATE, Decimal(v), v, Server)])
  }

  datatype Action = Action(action: string, target: string)

  function CurrentRevision(s: State, id: string): int { if id in s.blobs then s.blobs[id].revision else 0 }

  function SyncStatus(s: State, id: string, user: string, revision: int, blob: string, actions: seq<Action>): int
  {
    if revision < 0 then 400
    else if SyncStore.DecodedLen(|blob|) > SyncStore.BLOB_LIMIT_BYTES then 413
    else if |actions| > 200 then 400
    else if id !in s.teams then 404
    else if MemberOf(s.teams[id].members, user).None? then 403
    else if revision != CurrentRevision(s, id) then 409
    else 200
  }

  function Cut(s: string, n: nat): string { if |s| > n then s[..n] else s }

  /** The rows of the actions that the client reports; nameless ones are passed over. */
  function ClientRows(id: string, user: string, revision: int, actions: seq<Action>): seq<Row>
  {
    if actions == [] then []
    else
      var a := actions[|actions| - 1];
      ClientRows(id, user, revision, actions[..|actions| - 1])
      + if a.action == "" then [] else [Row(id, user, Cut(a.action, 64), Cut(a.target, 128), revision, Client)]
  }

  function Synced(s: State, id: string, user: string, blob: string, actions: seq<Action>): State
  {
    var next := CurrentRevision(s, id) + 1;
    s.(blobs := s.blobs[id := Blob(next, Some(blob))],
       audit := s.audit + [Row(id, user, SYNC, Decimal(next), next, Server)] + ClientRows(id, user, next, actions))
  }

  // ----- the handlers -----

  method FindMember(members: seq<Member>, user: string) returns (m: Option<Member>)
    ensures m == MemberOf(members, user)
  {
    var i := 0;
    while i < |members|
      invariant 0 <= i <= |members| && MemberOf(members[i..], user) == MemberOf(members, user)
    {
      if members[i].user == user { return Some(members[i]); }
      i := i + 1;
    }
    m := None;
  }

  class Handlers {
    var teams: map<string, Team>
    var blobs: map<string, Blob>
    var audit: seq<Row>

    ghost function Contents(): State
      reads this
    {
      State(teams, blobs, audit)
    }

    constructor ()
      ensures Contents() == State(map[], map[], [])
    {
      teams, blobs, audit := map[], map[], [];
    }

    method AuditLog(workspace: string, actor: string, action: string, target: string, revision: int, source: Source)
      modifies this
      ensures Contents() == old(Contents()).(audit := old(audit) + [Row(workspace, actor, action, target, revision, source)])
    {
      audit := audit + [Row(workspace, actor, action, target, revision, source)];
    }

    method HandleCreateTeam(id: string, user: string, name: string, wrappedKey: string, now: string) returns (status: int)
      modifies this
      ensures status == CreateStatus(name, wrappedKey)
      ensures Contents() == if status == 201 then Created(old(Contents()), id, user, name, wrappedKey, now) else old(Contents())
    {
      if name == "" || |name| > 100 { return 400; }
      if wrappedKey == "" { return 400; }
      teams := teams[id := Team(name, [Member(user, "owner", wrappedKey, now)], 1)];
      blobs := blobs[id := Blob(0, None)];
      AuditLog(id, user, "workspace.create", name, 0, Server);
      status := 201;
    }

    method HandleDeleteTeam(id: string, user: string) returns (status: int)
      modifies this
      ensures status == DeleteStatus(old(Contents()), id, user)
      ensures Contents() == if status == 200 then Deleted(old(Contents()), id, user) else old(Contents())
    {
      if id !in teams { return 404; }
      var m := FindMember(teams[id].members, user);
      if !IsOwner(m) { return 403; }
      var name := teams[id].name;
      teams := teams - {id};
      blobs := blobs - {id};
      AuditLog(id, user, "workspace.delete", name, 0, Server);
      status := 200;
    }

    method HandleKeyRotate(d: Directory, id: string, user: string, items: seq<Item>, now: string) returns (status: int)
      modifies this
      ensures status == RotateStatus(old(Contents()), d, id, user, items)
      ensures Contents() == if status == 200 then Rotated(old(Contents()), id, user, items, now) else old(Contents())
    {
      if items == [] { return 400; }
      if id !in teams { return 404; }
      var t := teams[id];
      var m := FindMember(t.members, user);
      if !IsAdminOrOwner(m) { return 403; }
      var newMembers: seq<Member> := [];
      var actorIncluded := false;
      var i := 0;
      while i < |items|
        invariant 0 <= i <= |items|
        invariant newMembers == NewMembers(t.members, items[..i], now)
        invariant actorIncluded <==> Includes(items[..i], user)
        invariant forall k :: 0 <= k < i ==> ValidItem(d, items[k])
        invariant Contents() == old(Contents())
      {
        var item := items[i];
        if item.user !in d.users || !ValidRole(item.role) || item.wrappedKey == "" || item.user !in d.keys {
          assert !ValidItem(d, items[i]);
          return 400;
        }
        var was := FindMember(t.members, item.user);
        newMembers := newMembers + [Member(item.user, item.role, item.wrappedKey, if was.Some? then was.value.joinedAt else now)];
        if item.user == user {
          actorIncluded := true;
        }
        assert items[..i + 1] == items[..i] + [item];
        IncludesStep(items[..i], item, user);
        i := i + 1;
      }
      assert items[..|items|] == items;
      if !actorIncluded { return 400; }
      var v := t.keyVersion + 1;
      teams := teams[id := t.(members := newMembers, keyVersion := v)];
      AuditLog(id, user, ROTATE, Decimal(v), v, Server);
      status := 200;
    }

    method HandleTeamSyncPost(id: string, user: string, revision: int, blob: string, actions: seq<Action>) returns (status: int)
      modifies this
      ensures status == SyncStatus(old(Contents()), id, user, revision, blob, actions)
      ensures Contents() == if status == 200 then Synced(old(Contents()), id, user, blob, actions) else old(Contents())
    {
      if revision < 0 { return 400; }
      if SyncStore.DecodedLen(|blob|) > SyncStore.BLOB_LIMIT_BYTES { return 413; }
      if |actions| > 200 { return 400; }
      if id !in teams { return 404; }
      var m := FindMember(teams[id].members, user);
      if m.None? { return 403; }
      var current := if id in blobs then blobs[id] else Blob(0, None);
      if revision != current.revision { return 409; }
      var next := current.revision + 1;
      blobs := blobs[id := Blob(next, Some(blob))];
      AuditLog(id, user, SYNC, Decimal(next), next, Server);
      ghost var logged := Contents();
      var i := 0;
      while i < |actions|
        invariant 0 <= i <= |actions|
        invariant Contents() == logged.(audit := logged.audit + ClientRows(id, user, next, actions[..i]))
      {
        var a := actions[i];
        assert actions[..i + 1][..i] == actions[..i];
        if a.action != "" {
          AuditLog(id, user, Cut(a.action, 64), Cut(a.target, 128), next, Client);
        }
        i := i + 1;
      }
      assert actions[..|actions|] == actions;
      status := 200;
    }
  }

  lemma IncludesStep(items: seq<Item>, item: Item, user: string)
    ensures Includes(items + [item], user) <==> Includes(items, user) || item.user == user
  {
    if Includes(items, user) {
      var i :| 0 <= i < |items| && items[i].user == user;
      assert (items + [item])[i].user == user;
    }
    assert (items + [item])[|items|] == item;
  }

  // ----- histories -----

  datatype Event =
    | Create(id: string, user: string, name: string, wrappedKey: string, now: string)
    | Delete(id: string, user: string)
    | Rotate(d: Directory, id: string, user: string, items: seq<Item>, now: string)
    | Sync(id: string, user: string, revision: int, blob: string, actions: seq<Action>)
    // any other handler: it may change the name and the members, and logs one of its own actions
    | Other(id: string, name: string, members: seq<Member>, row: Row)

  /** A new workspace gets an identifier that was never used. */
  ghost predicate Unused(s: State, id: string)
  {
    id !in s.teams && forall i :: 0 <= i < |s.audit| ==> s.audit[i].workspace != id
  }

  predicate OtherAction(action: string)
  {
    action in ["workspace.rename", "member.add", "member.role", "member.remove"]
  }

  ghost function Step(s: State, e: Event): State
  {
    match e
    case Create(id, user, name, wrappedKey, now) =>
      if Unused(s, id) && CreateStatus(name, wrappedKey) == 201 then Created(s, id, user, name, wrappedKey, now) else s
    case Delete(id, user) =>
      if DeleteStatus(s, id, user) == 200 then Deleted(s, id, user) else s
    case Rotate(d, id, user, items, now) =>
      if RotateStatus(s, d, id, user, items) == 200 then Rotated(s, id, user, items, now) else s
    case Sync(id, user, revision, blob, actions) =>
      if SyncStatus(s, id, user, revision, blob, actions) == 200 then Synced(s, id, user, blob, actions) else s
    case Other(id, name, members, row) =>
      if id in s.teams && row.workspace == id && row.source == Server && OtherAction(row.action) then
        s.(teams := s.teams[id := s.teams[id].(name := name, members := members)], audit := s.audit + [row])
      else s
  }

  ghost function Run(events: seq<Event>): State
  {
    if events == [] then State(map[], map[], []) else Step(Run(events[..|events| - 1]), events[|events| - 1])
  }

  /** The revisions of the server's rows for an action on a workspace, oldest first. */
  function Revisions(audit: seq<Row>, id: string, action: string): seq<int>
  {
    if audit == [] then []
    else
      var row := audit[|audit| - 1];
      Revisions(audit[..|audit| - 1], id, action)
      + if row.workspace == id && row.source == Server && row.action == action then [row.revision] else []
  }

  /** `first`, `first + 1`, and so on: `n` numbers. */
  function CountFrom(first: int, n: nat): (r: seq<int>)
    ensures |r| == n
  {
    seq(n, i => first + i)
  }

  lemma CountFromGrows(first: int, n: nat)
    ensures CountFrom(first, n) + [first + n] == CountFrom(first, n + 1)
  {
  }

  /** A client row carries the revision of the latest server row before it. */
  ghost predicate ClientRowsFollow(audit: seq<Row>, id: string)
  {
    forall i :: 0 <= i < |audit| && audit[i].workspace == id && audit[i].source == Client ==>
      FollowsSync(audit, id, i)
  }

  predicate FollowsSync(audit: seq<Row>, id: string, i: nat)
    requires i < |audit|
  {
    var before := Revisions(audit[..i], id, SYNC);
    before != [] && audit[i].revision == before[|before| - 1]
  }

  ghost predicate HistoryOk(s: State, id: string)
  {
    var syncs, rotations := Revisions(s.audit, id, SYNC), Revisions(s.audit, id, ROTATE);
    && syncs == CountFrom(1, |syncs|)
    && rotations == CountFrom(2, |rotations|)
    && ClientRowsFollow(s.audit, id)
    && (id in s.teams ==>
          && id in s.blobs && s.blobs[id].revision == |syncs|
          && s.teams[id].keyVersion == 1 + |rotations|)
  }

  lemma {:induction false} AppendRow(audit: seq<Row>, row: Row, id: string)
    requires ClientRowsFollow(audit, id)
    requires row.workspace == id && row.source == Client ==>
               Revisions(audit, id, SYNC) != [] && row.revision == Revisions(audit, id, SYNC)[|Revisions(audit, id, SYNC)| - 1]
    ensures ClientRowsFollow(audit + [row], id)
    ensures forall action :: Revisions(audit + [row], id, action) ==
              Revisions(audit, id, action)
              + if row.workspace == id && row.source == Server && row.action == action then [row.revision] else []
  {
    var all := audit + [row];
    assert all[..|audit|] == audit;
    forall i | 0 <= i < |all| && all[i].workspace == id && all[i].source == Client ensures FollowsSync(all, id, i) {
      assert all[..i] == audit[..i];
      if i < |audit| { assert FollowsSync(audit, id, i); } else { assert audit[..i] == audit; }
    }
  }

  lemma {:induction false} AppendClientRows(audit: seq<Row>, workspace: string, user: string, revision: int, actions: seq<Action>, id: string)
    requires ClientRowsFollow(audit, id)
    requires workspace == id ==>
               Revisions(audit, id, SYNC) != [] && revision == Revisions(audit, id, SYNC)[|Revisions(audit, id, SYNC)| - 1]
    ensures var all := audit + ClientRows(workspace, user, revision, actions);
            ClientRowsFollow(all, id) && forall action :: Revisions(all, id, action) == Revisions(audit, id, action)
  {
    hide ClientRowsFollow, Revisions, Cut;
    if actions == [] {
      assert audit + [] == audit;
    } else {
      var before, a := actions[..|actions| - 1], actions[|actions| - 1];
      AppendClientRows(audit, workspace, user, revision, before, id);
      var all := audit + ClientRows(workspace, user, revision, before);
      if a.action == "" {
        assert audit + ClientRows(workspace, user, revision, actions) == all;
      } else {
        var row := Row(workspace, user, Cut(a.action, 64), Cut(a.target, 128), revision, Client);
        AppendRow(all, row, id);
        assert audit + ClientRows(workspace, user, revision, actions) == all + [row];
      }
    }
  }

  lemma {:induction false} UnusedHasNoHistory(audit: seq<Row>, id: string, action: string)
    requires forall i :: 0 <= i < |audit| ==> audit[i].workspace != id
    ensures Revisions(audit, id, action) == []
  {
    if audit != [] {
      UnusedHasNoHistory(audit[..|audit| - 1], id, action);
    }
  }

  lemma SyncKeepsHistory(s: State, id: string, user: string, blob: string, actions: seq<Action>, w: string)
    requires HistoryOk(s, w) && id in s.teams
    ensures HistoryOk(Synced(s, id, user, blob, actions), w)
  {
    var next := CurrentRevision(s, id) + 1;
    var row := Row(id, user, SYNC, Decimal(next), next, Server);
    hide ClientRowsFollow, Revisions, Decimal, ClientRows, CountFrom;
    AppendRow(s.audit, row, w);
    AppendClientRows(s.audit + [row], id, user, next, actions, w);
    CountFromGrows(1, |Revisions(s.audit, w, SYNC)|);
  }

  lemma RotateKeepsHistory(s: State, id: string, user: string, items: seq<Item>, now: string, w: string)
    requires HistoryOk(s, w) && id in s.teams
    ensures HistoryOk(Rotated(s, id, user, items, now), w)
  {
    var v := s.teams[id].keyVersion + 1;
    hide ClientRowsFollow, Revisions, Decimal, NewMembers, CountFrom;
    AppendRow(s.audit, Row(id, user, ROTATE, Decimal(v), v, Server), w);
    CountFromGrows(2, |Revisions(s.audit, w, ROTATE)|);
  }

  lemma CreateKeepsHistory(s: State, id: string, user: string, name: string, wrappedKey: string, now: string, w: string)
    requires HistoryOk(s, w) && Unused(s, id)
    ensures HistoryOk(Created(s, id, user, name, wrappedKey, now), w)
  {
    if w == id {
      UnusedHasNoHistory(s.audit, id, SYNC);
      UnusedHasNoHistory(s.audit, id, ROTATE);
    }
    hide ClientRowsFollow, Revisions, CountFrom, Unused;
    AppendRow(s.audit, Row(id, user, "workspace.create", name, 0, Server), w);
  }

  lemma DeleteKeepsHistory(s: State, id: string, user: string, w: string)
    requires HistoryOk(s, w) && id in s.teams
    ensures HistoryOk(Deleted(s, id, user), w)
  {
    hide ClientRowsFollow, Revisions, CountFrom;
    AppendRow(s.audit, Row(id, user, "workspace.delete", s.teams[id].name, 0, Server), w);
  }

  lemma OtherKeepsHistory(s: State, e: Event, w: string)
    requires HistoryOk(s, w) && e.Other?
    ensures HistoryOk(Step(s, e), w)
  {
    hide ClientRowsFollow, Revisions, CountFrom;
    if e.row.source == Server { AppendRow(s.audit, e.row, w); }
  }

  lemma StepKeepsHistory(s: State, e: Event, w: string)
    requires HistoryOk(s, w)
    ensures HistoryOk(Step(s, e), w)
  {
    hide HistoryOk, CreateStatus, Created, Deleted, Rotated, Synced, Unused;
    match e
    case Create(id, user, name, wrappedKey, now) =>
      if Unused(s, id) { CreateKeepsHistory(s, id, user, name, wrappedKey, now, w); }
    case Delete(id, user) =>
      if id in s.teams { DeleteKeepsHistory(s, id, user, w); }
    case Rotate(d, id, user, items, now) =>
      if id in s.teams { RotateKeepsHistory(s, id, user, items, now, w); }
    case Sync(id, user, revision, blob, actions) =>
      if id in s.teams { SyncKeepsHistory(s, id, user, blob, actions, w); }
    case Other(id, name, members, row) =>
      OtherKeepsHistory(s, e, w);
  }

  /** In every history: the server's sync rows of a workspace carry the revisions 1 to n in order,
      and n is the revision of its blob while it exists; its key rotations carry the versions 2
      to v, and v is its key version while it exists; and every client row carries the revision
      of the latest server sync row before it. */
  lemma {:induction false} HistoryIsConsecutive(events: seq<Event>, w: string)
    ensures HistoryOk(Run(events), w)
  {
    if events != [] {
      HistoryIsConsecutive(events[..|events| - 1], w);
      hide HistoryOk, Step;
      StepKeepsHistory(Run(events[..|events| - 1]), events[|events| - 1], w);
    }
  }

  // ----- rotations -----

  /** A rotation that is accepted keeps the caller in, gives every listed user the new wrapped key
      and one of the three roles, and keeps when members who stay had joined. */
  lemma RotationRewraps(s: State, d: Directory, id: string, user: string, items: seq<Item>, now: string)
    requires RotateStatus(s, d, id, user, items) == 200
    ensures var members := Rotated(s, id, user, items, now).teams[id].members;
            && |members| == |items|
            && MemberOf(members, user).Some?
            && forall i :: 0 <= i < |members| ==>
                 && members[i].user == items[i].user && members[i].role == items[i].role
                 && ValidRole(members[i].role) && members[i].user in d.keys
                 && members[i].wrappedKey == items[i].wrappedKey != ""
                 && var was := MemberOf(s.teams[id].members, members[i].user);
                    members[i].joinedAt == if was.Some? then was.value.joinedAt else now
  {
    var members := Rotated(s, id, user, items, now).teams[id].members;
    forall i | 0 <= i < |members| ensures ValidItem(d, items[i]) && members[i] == Rewrapped(s.teams[id].members, items[i], now) {
    }
    var i :| 0 <= i < |items| && items[i].user == user;
    MemberAt(members, i);
  }

  lemma {:induction false} MemberAt(members: seq<Member>, i: nat)
    requires i < |members|
    ensures MemberOf(members, members[i].user).Some?
  {
    if i > 0 {
      MemberAt(members[1..], i - 1);
    }
  }
}
