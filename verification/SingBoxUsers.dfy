// Per-inbound user maps of the sing-box backend: full replacement, incremental update and the
// rendered user list (node-main/backend/singbox/config.go).
module SingBoxUsers {
  import opened Prelude

  // What buildUserEntry looks at besides the user: the inbound's type and its cipher method.
  datatype Protocol = Protocol(itype: string, cipher: string) {
    // Classic Shadowsocks knows no user list.
    predicate SingleUser() { itype == "shadowsocks" && !("2022-blake3" <= cipher) }
  }

  datatype User = User(email: string, inbounds: seq<string>, proxies: map<string, string>)

  datatype Entry = Entry(name: string, password: Option<string>, fields: map<string, string>)

  function NameOf(e: Entry): string { e.name }

  function EmailOf(u: User): string { u.email }

  type Builder = (Protocol, User) -> Option<Entry>

  // The one law of buildUserEntry used here: the entry it builds is named after the user's email.
  ghost predicate NamesByEmail(build: Builder) {
    forall p, u :: build(p, u).Some? ==> build(p, u).value.name == u.email
  }

  // The entry a user gets in one inbound, if any.
  function EntryIn(tag: string, protocol: Protocol, build: Builder): User -> Option<Entry> {
    (u: User) => if tag in u.inbounds then build(protocol, u) else None
  }

  function Lookup<T>(m: map<string, T>, k: string): Option<T> { if k in m then Some(m[k]) else None }

  function Emails(us: seq<User>): set<string> { set u | u in us :: u.email }

  // ---- what a list of users asks for, email by email ----

  // The last occurrence of an email.
  function Latest(us: seq<User>, email: string): (r: Option<User>)
    ensures r.None? <==> email !in Emails(us)
    ensures r.Some? ==> r.value in us && r.value.email == email
  {
    if us == [] then None
    else
      var u, front := us[|us| - 1], us[..|us| - 1];
      assert us == front + [u];
      if u.email == email then Some(u) else Latest(front, email)
  }

  // The entry of the last occurrence that has one here.
  function LatestEntry(us: seq<User>, email: string, f: User -> Option<Entry>): (r: Option<Entry>)
    ensures r.Some? <==> exists u :: u in us && u.email == email && f(u).Some?
  {
    if us == [] then None
    else
      var u, front := us[|us| - 1], us[..|us| - 1];
      assert us == front + [u];
      if u.email == email && f(u).Some? then f(u) else LatestEntry(front, email, f)
  }

  function Slot(m: map<string, Entry>, us: seq<User>, f: User -> Option<Entry>, email: string): Option<Entry> {
    match Latest(us, email)
    case Some(u) => f(u)
    case None => Lookup(m, email)
  }

  // The map after an incremental update: the last occurrence of every email decides, other
  // emails keep their entry.
  ghost function Updated(m: map<string, Entry>, us: seq<User>, f: User -> Option<Entry>): map<string, Entry> {
    map e | e in m.Keys + Emails(us) && Slot(m, us, f, e).Some? :: Slot(m, us, f, e).value
  }

  // The map after a full replacement: the last occurrence that has an entry here.
  ghost function Synced(us: seq<User>, f: User -> Option<Entry>): map<string, Entry> {
    map e | e in Emails(us) && LatestEntry(us, e, f).Some? :: LatestEntry(us, e, f).value
  }

  // The latest occurrence of an email, and the latest that has an entry, by position.
  lemma {:induction false} LatestAt(us: seq<User>, e: string) returns (i: nat)
    requires e in Emails(us)
    ensures i < |us| && us[i].email == e && Latest(us, e) == Some(us[i])
    ensures forall j | i < j < |us| :: us[j].email != e
  {
    i := |us| - 1;
    assert us == us[..i] + [us[i]];
    if us[i].email != e { i := LatestAt(us[..i], e); }
  }

  lemma {:induction false} LatestEntryAt(us: seq<User>, e: string, f: User -> Option<Entry>) returns (i: nat)
    requires LatestEntry(us, e, f).Some?
    ensures i < |us| && us[i].email == e && LatestEntry(us, e, f) == f(us[i])
    ensures forall j | i < j < |us| :: us[j].email != e || f(us[j]).None?
  {
    i := |us| - 1;
    if us[i].email != e || f(us[i]).None? { i := LatestEntryAt(us[..i], e, f); }
  }

  // Which entry a full replacement leaves in an inbound with this tag: the one built for the last user of the email
  // that lists the tag and can be built.
  lemma SyncedEntry(us: seq<User>, tag: string, protocol: Protocol, build: Builder, e: string)
    ensures e in Synced(us, EntryIn(tag, protocol, build)) <==>
            exists u :: u in us && u.email == e && tag in u.inbounds && build(protocol, u).Some?
    ensures e in Synced(us, EntryIn(tag, protocol, build)) ==>
            exists i | 0 <= i < |us| ::
              && us[i].email == e && tag in us[i].inbounds
              && build(protocol, us[i]) == Some(Synced(us, EntryIn(tag, protocol, build))[e])
              && forall j | i < j < |us| :: us[j].email == e && tag in us[j].inbounds ==> build(protocol, us[j]).None?
  {
    var f := EntryIn(tag, protocol, build);
    assert forall u :: f(u).Some? <==> tag in u.inbounds && build(protocol, u).Some?;
    if e in Synced(us, f) {
      var i := LatestEntryAt(us, e, f);
      assert build(protocol, us[i]) == Some(Synced(us, f)[e]);
    }
  }

  // Which entry an update leaves: emails that do not occur keep theirs; for the others the last user with the
  // email decides, who loses the entry when it does not list the tag or cannot be built.
  lemma UpdatedEntry(m: map<string, Entry>, us: seq<User>, tag: string, protocol: Protocol, build: Builder, e: string)
    ensures (forall u | u in us :: u.email != e) ==>
              && (e in Updated(m, us, EntryIn(tag, protocol, build)) <==> e in m)
              && (e in m ==> Updated(m, us, EntryIn(tag, protocol, build))[e] == m[e])
    ensures (exists u :: u in us && u.email == e) ==>
            exists i | 0 <= i < |us| ::
              && us[i].email == e && (forall j | i < j < |us| :: us[j].email != e)
              && (e in Updated(m, us, EntryIn(tag, protocol, build)) <==>
                   tag in us[i].inbounds && build(protocol, us[i]).Some?)
              && (e in Updated(m, us, EntryIn(tag, protocol, build)) ==>
                   build(protocol, us[i]) == Some(Updated(m, us, EntryIn(tag, protocol, build))[e]))
  {
    if e in Emails(us) {
      var i := LatestAt(us, e);
      UpdatedSlot(m, us, EntryIn(tag, protocol, build), e);
      assert us[i].email == e;
    }
  }

  lemma UpdatedSlot(m: map<string, Entry>, us: seq<User>, f: User -> Option<Entry>, e: string)
    ensures Lookup(Updated(m, us, f), e) == Slot(m, us, f, e)
  {}

  lemma SyncedSlot(us: seq<User>, f: User -> Option<Entry>, e: string)
    ensures Lookup(Synced(us, f), e) == LatestEntry(us, e, f)
  {}

  lemma SameLookup(a: map<string, Entry>, b: map<string, Entry>)
    requires forall e :: Lookup(a, e) == Lookup(b, e)
    ensures a == b
  {
    assert forall e :: e in a <==> Lookup(a, e).Some?;
    assert forall e :: e in b <==> Lookup(b, e).Some?;
    assert forall e | e in a :: a[e] == Lookup(a, e).value;
  }

  // ---- the loops ----

  lemma SlotOneMore(m: map<string, Entry>, us: seq<User>, n: nat, f: User -> Option<Entry>, e: string)
    requires n < |us|
    ensures Slot(m, us[..n+1], f, e) == if us[n].email == e then f(us[n]) else Slot(m, us[..n], f, e)
  {
    assert us[..n+1][..n] == us[..n];
  }

  function Put(m: map<string, Entry>, e: string, entry: Option<Entry>): map<string, Entry> {
    if entry.Some? then m[e := entry.value] else m - {e}
  }

  lemma UpdatedOneMore(m: map<string, Entry>, us: seq<User>, n: nat, f: User -> Option<Entry>)
    requires n < |us|
    ensures Updated(m, us[..n+1], f) == Put(Updated(m, us[..n], f), us[n].email, f(us[n]))
  {
    var was, now := Updated(m, us[..n], f), Updated(m, us[..n+1], f);
    forall e ensures Lookup(now, e) == Lookup(Put(was, us[n].email, f(us[n])), e) {
      UpdatedSlot(m, us[..n+1], f, e);
      UpdatedSlot(m, us[..n], f, e);
      SlotOneMore(m, us, n, f, e);
    }
    SameLookup(now, Put(was, us[n].email, f(us[n])));
  }

  lemma SyncedOneMore(us: seq<User>, n: nat, f: User -> Option<Entry>)
    requires n < |us|
    ensures Synced(us[..n+1], f) ==
            if f(us[n]).Some? then Synced(us[..n], f)[us[n].email := f(us[n]).value] else Synced(us[..n], f)
  {
    var was, now := Synced(us[..n], f), Synced(us[..n+1], f);
    var after := if f(us[n]).Some? then was[us[n].email := f(us[n]).value] else was;
    assert us[..n+1][..n] == us[..n];
    forall e ensures Lookup(now, e) == Lookup(after, e) {
      SyncedSlot(us[..n+1], f, e);
      SyncedSlot(us[..n], f, e);
    }
    SameLookup(now, after);
  }

  class Inbound {
    const tag: string
    const protocol: Protocol
    const exclude: bool
    var users: map<string, Entry>
    var rawUsers: seq<Entry>
    var rawPassword: string

    constructor (tag: string, protocol: Protocol, exclude: bool, rawUsers: seq<Entry>, rawPassword: string)
      ensures users == map[] && this.tag == tag && this.protocol == protocol && this.exclude == exclude
      ensures this.rawUsers == rawUsers && this.rawPassword == rawPassword
    {
      this.tag, this.protocol, this.exclude := tag, protocol, exclude;
      users, this.rawUsers, this.rawPassword := map[], rawUsers, rawPassword;
    }

    // Every entry is filed under its own name.
    ghost predicate Filed()
      reads this
    {
      forall e | e in users :: users[e].name == e
    }

    // One round of syncUsers.
    method Replace(us: seq<User>, build: Builder)
      modifies `users
      ensures users == Synced(us, EntryIn(tag, protocol, build))
    {
      ghost var f := EntryIn(tag, protocol, build);
      var newUsers: map<string, Entry> := map[];
      for i := 0 to |us|
        invariant newUsers == Synced(us[..i], f)
      {
        SyncedOneMore(us, i, f);
        var u := us[i];
        if tag !in u.inbounds { continue; }
        var entry := build(protocol, u);
        if entry.None? { continue; }
        newUsers := newUsers[u.email := entry.value];
      }
      assert us[..|us|] == us;
      users := newUsers;
    }

    // One round of updateUsers.
    method Update(us: seq<User>, build: Builder)
      modifies `users
      ensures users == Updated(old(users), us, EntryIn(tag, protocol, build))
    {
      ghost var f := EntryIn(tag, protocol, build);
      ghost var before := users;
      SameLookup(users, Updated(before, us[..0], f));
      for i := 0 to |us|
        invariant users == Updated(before, us[..i], f)
      {
        UpdatedOneMore(before, us, i, f);
        var u := us[i];
        if tag in u.inbounds {
          var entry := build(protocol, u);
          if entry.Some? { users := users[u.email := entry.value]; } else { users := users - {u.email}; }
        } else {
          users := users - {u.email};
        }
      }
      assert us[..|us|] == us;
    }

    // `usersList` of applyUsersToRaw.
    method ListUsers() returns (usersList: seq<Entry>)
      requires Filed()
      ensures ListsAll(usersList, users)
    {
      var order := AnyOrder(users.Keys);
      usersList := [];
      for i := 0 to |order|
        invariant |usersList| == i && forall j | 0 <= j < i :: order[j] in users && usersList[j] == users[order[j]]
      {
        assert order[i] in Elems(order);
        usersList := usersList + [users[order[i]]];
      }
      ListedUsers(users, order, usersList);
    }

    // One round of applyUsersToRaw. A classic Shadowsocks inbound takes the password of one of its
    // users, whichever the map yields first, and keeps its previous password when it has no users.
    method Render()
      requires Filed()
      modifies `rawUsers, `rawPassword
      ensures protocol.SingleUser() <==>
                protocol.itype == "shadowsocks" && !("2022-blake3" <= protocol.cipher)
      ensures protocol.SingleUser() ==> rawUsers == old(rawUsers)
      ensures protocol.SingleUser() && users == map[] ==> rawPassword == old(rawPassword)
      ensures protocol.SingleUser() && users != map[] ==>
                exists e :: e in users && rawPassword == users[e].password.UnwrapOr(old(rawPassword))
      ensures !protocol.SingleUser() ==> ListsAll(rawUsers, users) && rawPassword == old(rawPassword)
    {
      var usersList := ListUsers();
      if protocol.itype == "shadowsocks" {
        if "2022-blake3" <= protocol.cipher {
          rawUsers := usersList;
        } else if |usersList| > 0 {
          ListedHead(usersList, users);
          var pwd := usersList[0].password;
          if pwd.Some? { rawPassword := pwd.value; }
        }
      } else {
        rawUsers := usersList;
      }
    }
  }

  // The list holds the entry of every user, each once, named by the email it is filed under.
  ghost predicate ListsAll(list: seq<Entry>, users: map<string, Entry>) {
    |list| == |users| && DistinctBy(list, NameOf) && IndexBy(list, NameOf) == users
  }

  lemma ListedHead(list: seq<Entry>, users: map<string, Entry>)
    requires ListsAll(list, users) && |list| > 0
    ensures list[0].name in users && users[list[0].name] == list[0]
  {
    IndexByElements(list, NameOf);
    assert NameOf(list[0]) in IndexBy(list, NameOf);
  }

  lemma ListedUsers(users: map<string, Entry>, order: seq<string>, list: seq<Entry>)
    requires Listing(order, users.Keys) && (forall e | e in users :: users[e].name == e)
    requires |list| == |order| && forall j | 0 <= j < |order| :: order[j] in users && list[j] == users[order[j]]
    ensures ListsAll(list, users)
  {
    ListingSize(order, users.Keys);
    forall j | 0 <= j < |list| ensures NameOf(list[j]) == order[j] {}
    forall e | e in users ensures e in IndexBy(list, NameOf) {
      assert e in Elems(order);
      var j :| 0 <= j < |order| && order[j] == e;
      assert NameOf(list[j]) == e;
    }
  }

  lemma {:induction false} ListingSize(order: seq<string>, keys: set<string>)
    requires Listing(order, keys)
    ensures |order| == |keys|
  {
    if order == [] {
    } else {
      var n := |order| - 1;
      ElemsPrefix(order, n);
      assert order[..n+1] == order;
      ListingSize(order[..n], keys - {order[n]});
    }
  }

  // ---- all inbounds ----

  class Config {
    const inbounds: seq<Inbound>

    constructor (inbounds: seq<Inbound>)
      requires NoDup(inbounds)
      ensures this.inbounds == inbounds
    {
      this.inbounds := inbounds;
    }

    method SyncUsers(us: seq<User>, build: Builder)
      requires NoDup(inbounds)
      modifies inbounds
      ensures forall b | b in inbounds :: b.rawUsers == old(b.rawUsers) && b.rawPassword == old(b.rawPassword)
      ensures forall b | b in inbounds ::
                b.users == if b.exclude then old(b.users) else Synced(us, EntryIn(b.tag, b.protocol, build))
    {
      for i := 0 to |inbounds|
        invariant forall b | b in inbounds :: b.rawUsers == old(b.rawUsers) && b.rawPassword == old(b.rawPassword)
        invariant forall j | i <= j < |inbounds| :: inbounds[j].users == old(inbounds[j].users)
        invariant forall j | 0 <= j < i ::
                    inbounds[j].users == if inbounds[j].exclude then old(inbounds[j].users)
                                         else Synced(us, EntryIn(inbounds[j].tag, inbounds[j].protocol, build))
      {
        if inbounds[i].exclude { continue; }
        inbounds[i].Replace(us, build);
      }
    }

    method UpdateUsers(us: seq<User>, build: Builder)
      requires NoDup(inbounds)
      modifies inbounds
      ensures forall b | b in inbounds :: b.rawUsers == old(b.rawUsers) && b.rawPassword == old(b.rawPassword)
      ensures forall b | b in inbounds ::
                b.users == if b.exclude then old(b.users)
                           else Updated(old(b.users), us, EntryIn(b.tag, b.protocol, build))
    {
      for i := 0 to |inbounds|
        invariant forall b | b in inbounds :: b.rawUsers == old(b.rawUsers) && b.rawPassword == old(b.rawPassword)
        invariant forall j | i <= j < |inbounds| :: inbounds[j].users == old(inbounds[j].users)
        invariant forall j | 0 <= j < i ::
                    inbounds[j].users == if inbounds[j].exclude then old(inbounds[j].users)
                                         else Updated(old(inbounds[j].users), us,
                                                       EntryIn(inbounds[j].tag, inbounds[j].protocol, build))
      {
        if inbounds[i].exclude { continue; }
        inbounds[i].Update(us, build);
      }
    }
  }

  // ---- properties ----

  lemma {:induction false} LatestConcat(us: seq<User>, vs: seq<User>, email: string)
    ensures Latest(us + vs, email) == if Latest(vs, email).Some? then Latest(vs, email) else Latest(us, email)
  {
    if vs == [] {
      assert us + vs == us;
    } else {
      var n := |vs| - 1;
      assert (us + vs)[..|us + vs| - 1] == us + vs[..n];
      LatestConcat(us, vs[..n], email);
    }
  }

  // Two updates are one update with the concatenated list.
  lemma UpdateTwice(m: map<string, Entry>, us: seq<User>, vs: seq<User>, f: User -> Option<Entry>)
    ensures Updated(Updated(m, us, f), vs, f) == Updated(m, us + vs, f)
  {
    var a, b := Updated(Updated(m, us, f), vs, f), Updated(m, us + vs, f);
    forall e ensures Lookup(a, e) == Lookup(b, e) {
      LatestConcat(us, vs, e);
      UpdatedSlot(Updated(m, us, f), vs, f, e);
      UpdatedSlot(m, us, f, e);
      UpdatedSlot(m, us + vs, f, e);
    }
    SameLookup(a, b);
  }

  // An email whose last occurrence has no entry here although an earlier one does.
  ghost predicate Withdrawn(us: seq<User>, f: User -> Option<Entry>, email: string) {
    && Latest(us, email).Some? && f(Latest(us, email).value).None?
    && exists u :: u in us && u.email == email && f(u).Some?
  }

  lemma {:induction false} LatestDecides(us: seq<User>, f: User -> Option<Entry>, e: string)
    requires Latest(us, e).Some? && f(Latest(us, e).value).Some?
    ensures LatestEntry(us, e, f) == f(Latest(us, e).value)
  {
    if us[|us| - 1].email != e { LatestDecides(us[..|us| - 1], f, e); }
  }

  // A full replacement equals an update of empty maps exactly when no email is withdrawn from the
  // inbound by its last occurrence: replacement skips such an occurrence, an update deletes.
  lemma SyncIsUpdateOfEmptyIff(us: seq<User>, f: User -> Option<Entry>)
    ensures Synced(us, f) == Updated(map[], us, f) <==> forall e :: !Withdrawn(us, f, e)
  {
    var a, b := Synced(us, f), Updated(map[], us, f);
    forall e ensures Lookup(a, e) == Lookup(b, e) <==> !Withdrawn(us, f, e) {
      SyncedSlot(us, f, e);
      UpdatedSlot(map[], us, f, e);
      if Latest(us, e).Some? && f(Latest(us, e).value).Some? { LatestDecides(us, f, e); }
    }
    if forall e :: !Withdrawn(us, f, e) { SameLookup(a, b); }
  }

  lemma OneOccurrence(us: seq<User>, u: User, v: User)
    requires DistinctBy(us, EmailOf) && u in us && v in us && u.email == v.email
    ensures u == v
  {
    var i :| 0 <= i < |us| && us[i] == u;
    var j :| 0 <= j < |us| && us[j] == v;
    assert EmailOf(us[i]) == EmailOf(us[j]);
  }

  lemma SyncIsUpdateOfEmpty(us: seq<User>, f: User -> Option<Entry>)
    requires DistinctBy(us, EmailOf)
    ensures Synced(us, f) == Updated(map[], us, f)
  {
    forall u | u in us && f(u).Some? ensures Latest(us, u.email) == Some(u) {
      OneOccurrence(us, u, Latest(us, u.email).value);
    }
    SyncIsUpdateOfEmptyIff(us, f);
  }

  lemma WithdrawnExample(build: Builder, tag: string, protocol: Protocol, u: User)
    requires tag in u.inbounds && build(protocol, u).Some?
    ensures var f := EntryIn(tag, protocol, build); var us := [u, u.(inbounds := [])];
            Synced(us, f) == map[u.email := build(protocol, u).value] && Updated(map[], us, f) == map[]
  {
    var f := EntryIn(tag, protocol, build);
    var us := [u, u.(inbounds := [])];
    assert us[..1] == [u];
    assert LatestEntry([u], u.email, f) == f(u);
    assert Emails(us) == {u.email};
  }

  // Both operations keep every entry filed under its own name.
  lemma EntriesStayFiled(m: map<string, Entry>, us: seq<User>, build: Builder, tag: string, protocol: Protocol)
    requires NamesByEmail(build) && forall e | e in m :: m[e].name == e
    ensures var f := EntryIn(tag, protocol, build);
            && (forall e | e in Updated(m, us, f) :: Updated(m, us, f)[e].name == e)
            && (forall e | e in Synced(us, f) :: Synced(us, f)[e].name == e)
  {
    var f := EntryIn(tag, protocol, build);
    forall e | e in Synced(us, f) ensures Synced(us, f)[e].name == e { EntryOfEmail(us, e, build, tag, protocol); }
  }

  lemma {:induction false} EntryOfEmail(us: seq<User>, e: string, build: Builder, tag: string, protocol: Protocol)
    requires NamesByEmail(build) && LatestEntry(us, e, EntryIn(tag, protocol, build)).Some?
    ensures LatestEntry(us, e, EntryIn(tag, protocol, build)).value.name == e
  {
    var f := EntryIn(tag, protocol, build);
    var u := us[|us| - 1];
    if !(u.email == e && f(u).Some?) { EntryOfEmail(us[..|us| - 1], e, build, tag, protocol); }
  }
}
