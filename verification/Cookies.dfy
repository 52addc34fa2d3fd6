/** The servers that cookies come from, and how they are counted (src/cookies/cookies.c:136-213,
    315-341 and 465-504). */
module Cookies {
  import opened Basics

  // ---- host names

  /** The order of host names, whatever their case: a name comes before all those it is a prefix of. */
  predicate Before(a: string, b: string) {
    b != "" && (a == "" || Lower(a[0]) < Lower(b[0]) || (Lower(a[0]) == Lower(b[0]) && Before(a[1..], b[1..])))
  }

  predicate Same(a: string, b: string) {
    |a| == |b| && (a == "" || (Lower(a[0]) == Lower(b[0]) && Same(a[1..], b[1..])))
  }

  /** c_strncasecmp, with the length of `b`: it does not look further than that. */
  function Compare(a: string, b: string): int {
    if b == "" then 0
    else if a == "" then -1
    else if Lower(a[0]) != Lower(b[0]) then (if Lower(a[0]) < Lower(b[0]) then -1 else 1)
    else Compare(a[1..], b[1..])
  }

  /** The comparisons of get_cookie_server tell the order of two names and whether they are the same. */
  lemma {:induction false} CompareTells(a: string, b: string)
    ensures Before(b, a) <==> Compare(a, b) > 0 || (Compare(a, b) == 0 && |a| > |b|)
    ensures Same(a, b) <==> Compare(a, b) == 0 && |a| == |b|
    ensures Before(a, b) <==> !Before(b, a) && !Same(a, b)
  {
    if a != "" && b != "" && Lower(a[0]) == Lower(b[0]) { CompareTells(a[1..], b[1..]); }
  }

  /** Names are the same if their characters are, but for case. */
  lemma {:induction false} SameIs(a: string, b: string)
    ensures Same(a, b) <==> |a| == |b| && forall i :: 0 <= i < |a| ==> a[i] == b[i] || OtherCase(a[i], b[i])
  {
    if a != "" && |a| == |b| {
      SameIs(a[1..], b[1..]);
      LowerTells(a[0], b[0]);
      forall i | 0 < i < |a| ensures a[i] == a[1..][i - 1] && b[i] == b[1..][i - 1] {}
    }
  }

  lemma {:induction false} BeforeTrans(a: string, b: string, c: string)
    requires (Before(a, b) || Same(a, b)) && (Before(b, c) || Same(b, c))
    ensures Before(a, c) || Same(a, c)
    ensures Before(a, b) || Before(b, c) ==> Before(a, c)
  {
    if a != "" && b != "" && c != "" && Lower(a[0]) == Lower(b[0]) == Lower(c[0]) {
      BeforeTrans(a[1..], b[1..], c[1..]);
    }
  }

  // ---- cookies and servers

  class CookieServer {
    const host: string
    /** How often the server is locked. */
    var locks: int

    constructor (host: string)
      ensures this.host == host && locks == 0
    {
      this.host, locks := host, 0;
    }
  }

  class Cookie {
    const name: string
    const domain: string
    const server: CookieServer

    constructor (name: string, domain: string, server: CookieServer)
      ensures this.name == name && this.domain == domain && this.server == server
    {
      this.name, this.domain, this.server := name, domain, server;
    }
  }

  /** How many of some cookies point to a server. */
  function Pointing(cs: seq<Cookie>, s: CookieServer): nat {
    if cs == [] then 0 else (if cs[0].server == s then 1 else 0) + Pointing(cs[1..], s)
  }

  function Removed<T(==)>(l: seq<T>, x: T): (r: seq<T>)
    ensures x !in l ==> r == l
    ensures forall y :: y in r ==> y in l
    ensures forall y :: y in l && y != x ==> y in r
  {
    if l == [] then [] else if l[0] == x then l[1..] else [l[0]] + Removed(l[1..], x)
  }

  lemma {:induction false} RemovedNoDup<T>(l: seq<T>, x: T)
    requires NoDup(l)
    ensures NoDup(Removed(l, x)) && x !in Removed(l, x)
  {
    if l != [] {
      assert NoDup(l[1..]) && l[0] !in l[1..];
      if l[0] != x { RemovedNoDup(l[1..], x); }
    }
  }

  lemma {:induction false} RemovedPoints(cs: seq<Cookie>, c: Cookie, s: CookieServer)
    requires c in cs
    ensures Pointing(Removed(cs, c), s) == Pointing(cs, s) - if c.server == s then 1 else 0
  {
    if cs[0] != c {
      RemovedPoints(cs[1..], c, s);
      var r := [cs[0]] + Removed(cs[1..], c);
      assert r[1..] == Removed(cs[1..], c);
    }
  }

  ghost predicate Sorted(l: seq<CookieServer>) {
    forall i, j :: 0 <= i < j < |l| ==> Before(l[i].host, l[j].host)
  }

  lemma {:induction false} RemovedSorted(l: seq<CookieServer>, x: CookieServer)
    requires Sorted(l)
    ensures Sorted(Removed(l, x)) && x !in Removed(l, x)
  {
    if l != [] {
      assert forall i :: 0 <= i < |l| - 1 ==> l[1..][i] == l[i + 1];
      assert Sorted(l[1..]);
      SelfNotBefore(l[0].host);
      if l[0] == x {
        assert forall i :: 0 < i < |l| ==> Before(l[0].host, l[i].host);
      } else {
        RemovedSorted(l[1..], x);
        forall y | y in Removed(l[1..], x) ensures Before(l[0].host, y.host) {
          var i :| 0 <= i < |l[1..]| && l[1..][i] == y;
          assert l[i + 1] == y;
        }
      }
    }
  }

  lemma {:induction false} SelfNotBefore(a: string)
    ensures !Before(a, a) && Same(a, a)
  {
    if a != "" { SelfNotBefore(a[1..]); }
  }

  /** A server put in front of the first one that comes after it. */
  lemma InsertedSorted(l: seq<CookieServer>, x: CookieServer, i: nat)
    requires Sorted(l) && i <= |l|
    requires forall k :: 0 <= k < i ==> Before(l[k].host, x.host)
    requires i < |l| ==> Before(x.host, l[i].host)
    ensures Sorted(l[..i] + [x] + l[i..])
  {
    var r := l[..i] + [x] + l[i..];
    forall a, b | 0 <= a < b < |r| ensures Before(r[a].host, r[b].host) {
      if a == i && b > i + 1 { BeforeTrans(x.host, l[i].host, l[b - 1].host); }
    }
  }

  /** Among the first `n` servers there is none with that name, and the spot is the first that comes
      after it. */
  ghost predicate SpotFor(l: seq<CookieServer>, n: nat, host: string, spot: Option<nat>)
    requires n <= |l|
  {
    && (forall k :: 0 <= k < n ==> !Same(l[k].host, host))
    && (spot == None ==> forall k :: 0 <= k < n ==> Before(l[k].host, host))
    && (spot.Some? ==>
         spot.value < n && Before(host, l[spot.value].host)
         && forall k :: 0 <= k < spot.value ==> Before(l[k].host, host))
  }

  lemma SpotPlaces(l: seq<CookieServer>, i: nat, host: string)
    requires i <= |l| && SpotFor(l, |l|, host, if i < |l| then Some(i) else None)
    ensures forall k :: 0 <= k < i ==> Before(l[k].host, host)
    ensures i < |l| ==> Before(host, l[i].host)
  {
  }

  class CookieJar {
    var servers: seq<CookieServer>
    /** The listbox items of the servers, in the order of the cookie manager. */
    var boxes: seq<CookieServer>
    var cookies: seq<Cookie>
    var queries: seq<Cookie>
    /** All cookies that have not been freed, in the lists or not yet. */
    ghost var live: seq<Cookie>
    /** The locks that no cookie stands for: those of callers and of the user interface. */
    ghost var held: multiset<CookieServer>

    ghost predicate Valid()
      reads this, servers
    {
      && Sorted(servers) && boxes == servers
      && NoDup(live) && NoDup(cookies) && NoDup(queries)
      && (forall c :: c in cookies ==> c in live && c !in queries) && (forall c :: c in queries ==> c in live)
      && (forall c :: c in live ==> c.server in servers)
      && (forall s :: s in held ==> s in servers)
      && (forall s :: s in servers ==> s.locks == Pointing(live, s) + held[s] && s.locks > 0)
    }

    constructor ()
      ensures Valid() && servers == [] && live == [] && held == multiset{}
    {
      servers, boxes, cookies, queries, live, held := [], [], [], [], [], multiset{};
    }

    /** get_cookie_server: the server with that name, locked for the caller, a new one if there was
        none. */
    method GetCookieServer(host: string) returns (cs: CookieServer)
      requires Valid()
      modifies this, servers
      ensures Valid() && cs in servers && Same(cs.host, host)
      ensures held == old(held) + multiset{cs}
      ensures live == old(live) && cookies == old(cookies) && queries == old(queries)
      ensures (exists s :: s in old(servers) && Same(s.host, host)) ==> servers == old(servers)
      ensures (forall s :: s in old(servers) ==> !Same(s.host, host)) ==>
        && fresh(cs) && cs.host == host
        && exists i :: 0 <= i <= |old(servers)| && servers == old(servers)[..i] + [cs] + old(servers)[i..]
    {
      hide Sorted, Same, Before;
      var found, sortSpot := Search(host);
      if found.Some? {
        cs := servers[found.value];
        Lock(cs);
        return;
      }
      cs := new CookieServer(host);
      SelfNotBefore(host);
      Insert(cs, if sortSpot.Some? then sortSpot.value else |servers|);
    }

    /** The loop of get_cookie_server: the server with that name, or the place of a new one. */
    method Search(host: string) returns (found: Option<nat>, sortSpot: Option<nat>)
      ensures found.Some? ==> found.value < |servers| && Same(servers[found.value].host, host)
      ensures found == None ==> SpotFor(servers, |servers|, host, sortSpot)
    {
      hide Same, Before;
      found, sortSpot := None, None;
      for i := 0 to |servers|
        invariant SpotFor(servers, i, host, sortSpot)
      {
        var cmp := Compare(servers[i].host, host);
        CompareTells(servers[i].host, host);
        if sortSpot == None && (cmp > 0 || (cmp == 0 && |servers[i].host| > |host|)) { sortSpot := Some(i); }
        if cmp == 0 && |servers[i].host| == |host| { return Some(i), sortSpot; }
      }
    }

    /** A new server, locked for the caller, goes into both lists. */
    method Insert(cs: CookieServer, i: nat)
      requires Valid() && i <= |servers| && cs !in servers && cs.locks == 0
      requires SpotFor(servers, |servers|, cs.host, if i < |servers| then Some(i) else None)
      modifies this, cs
      ensures Valid() && held == old(held) + multiset{cs}
      ensures live == old(live) && cookies == old(cookies) && queries == old(queries)
      ensures servers == old(servers)[..i] + [cs] + old(servers)[i..]
    {
      hide Same, Before, Sorted, Pointing, NoDup, SpotFor;
      SpotPlaces(servers, i, cs.host);
      InsertedSorted(servers, cs, i);
      NonePoint(live, cs);
      ghost var before := servers;
      cs.locks := cs.locks + 1;
      servers := servers[..i] + [cs] + servers[i..];
      boxes := boxes[..i] + [cs] + boxes[i..];
      held := held + multiset{cs};
      assert forall s :: s in servers <==> s == cs || s in before;
    }

    /** object_lock. */
    method Lock(cs: CookieServer)
      requires Valid() && cs in servers
      modifies this`held, cs
      ensures Valid() && held == old(held) + multiset{cs}
    {
      cs.locks := cs.locks + 1;
      held := held + multiset{cs};
    }

    /** done_cookie_server: gives a lock back; the server goes with the last one. */
    method DoneCookieServer(cs: CookieServer)
      requires Valid() && held[cs] > 0
      modifies this`held, this`servers, this`boxes, cs
      ensures Valid() && held == old(held) - multiset{cs}
      ensures servers == if Pointing(live, cs) + held[cs] > 0 then old(servers) else Removed(old(servers), cs)
      ensures forall s :: s in servers ==> s in old(servers)
      ensures forall s :: s in old(servers) ==> (s in servers <==> Pointing(live, s) + held[s] > 0)
    {
      hide Pointing, Before, Removed, Sorted, NoDup;
      assert cs in held;
      held := held - multiset{cs};
      cs.locks := cs.locks - 1;
      if cs.locks == 0 {
        NonePointLeft(live, cs);
        Unlink(cs);
      }
    }

    /** del_from_list, for a server and its listbox item. */
    method Unlink(cs: CookieServer)
      requires Sorted(servers) && boxes == servers
      modifies this`servers, this`boxes
      ensures Sorted(servers) && boxes == servers && servers == Removed(old(servers), cs)
      ensures forall s :: s in servers <==> s in old(servers) && s != cs
    {
      hide Sorted, Removed;
      RemovedSorted(servers, cs);
      boxes := Removed(boxes, cs);
      servers := Removed(servers, cs);
    }

    /** init_cookie: the cookie takes over a lock of its caller. */
    method InitCookie(name: string, domain: string, server: CookieServer) returns (cookie: Cookie)
      requires Valid() && held[server] > 0
      modifies this`live, this`held
      ensures Valid() && fresh(cookie) && cookie.name == name && cookie.domain == domain && cookie.server == server
      ensures live == [cookie] + old(live) && held == old(held) - multiset{server}
    {
      hide Pointing, Before;
      assert server in held;
      cookie := new Cookie(name, domain, server);
      FirstPoints(cookie, live);
      assert cookie !in live;
      held := held - multiset{server};
      live := [cookie] + live;
    }

    /** done_cookie, for a cookie that is in no list. */
    method DoneCookie(c: Cookie)
      requires Valid() && c in live && c !in cookies && c !in queries
      modifies this`live, this`held, this`servers, this`boxes, c.server
      ensures Valid() && live == Removed(old(live), c) && held == old(held)
      ensures forall s :: s in servers ==> s in old(servers)
      ensures forall s :: s in old(servers) ==> (s in servers <==> Pointing(live, s) + held[s] > 0)
    {
      hide Pointing, Before, Removed, Sorted;
      RemovedNoDup(live, c);
      RemovedIs(live, c);
      forall s { RemovedPoints(live, c, s); }
      live := Removed(live, c);
      held := held + multiset{c.server};
      DoneCookieServer(c.server);
      assert held == old(held);
    }

    /** delete_cookie. */
    method DeleteCookie(c: Cookie)
      requires Valid() && (c in cookies || c in queries)
      modifies this, c.server
      ensures Valid() && live == Removed(old(live), c) && held == old(held)
      ensures cookies == Removed(old(cookies), c) && queries == Removed(old(queries), c)
      ensures forall s :: s in servers ==> s in old(servers)
      ensures forall s :: s in old(servers) ==> (s in servers <==> Pointing(live, s) + held[s] > 0)
    {
      hide Pointing, Before, Removed, Sorted;
      RemovedNoDup(cookies, c);
      RemovedNoDup(queries, c);
      RemovedIs(cookies, c);
      RemovedIs(queries, c);
      cookies, queries := Removed(cookies, c), Removed(queries, c);
      DoneCookie(c);
    }

    /** accept_cookie: the cookie replaces those of the same name and domain, unless the file is just
        being loaded; those are freed, and their servers with them if nothing else needs them. */
    method AcceptCookie(cookie: Cookie, nosave: bool)
      requires Valid() && cookie in live && cookie !in cookies && cookie !in queries
      modifies this, servers
      ensures Valid() && held == old(held) && queries == old(queries) && cookie in live
      ensures cookies != [] && cookies[0] == cookie
      ensures forall c :: c in cookies ==> c == cookie || c in old(cookies)
      ensures forall c :: c in old(cookies) ==>
              (c in cookies <==> nosave || !(Same(c.name, cookie.name) && Same(c.domain, cookie.domain)))
      ensures forall c, d :: c in cookies && d in cookies && InFront(old(cookies), c, d) ==> InFront(cookies, c, d)
      ensures forall c :: c in live <==> c in old(live) && (c in old(cookies) ==> c in cookies)
      ensures forall s :: s in servers <==> s in old(servers) && Pointing(live, s) + held[s] > 0
      ensures cookie.server in servers
    {
      hide Pointing, Before, Sorted, Removed, Others, SameCookie, Same, InFront;
      ghost var all := cookies;
      AllServed();
      if !nosave {
        DropOthers(cookie);
        OthersAre(all, cookie);
      }
      FirstInFront(cookie, cookies);
      InFrontIn(all);
      cookies := [cookie] + cookies;
    }

    /** The loop over the cookies of the same name and domain. */
    method DropOthers(cookie: Cookie)
      requires Valid() && cookie in live && cookie !in cookies && cookie !in queries
      modifies this, servers
      ensures Valid() && held == old(held) && queries == old(queries) && cookie in live && cookie !in cookies
      ensures cookies == Others(old(cookies), cookie)
      ensures forall c :: c in live <==> c in old(live) && (c in old(cookies) ==> c in cookies)
      ensures forall s :: s in servers <==> s in old(servers) && Pointing(live, s) + held[s] > 0
    {
      hide Pointing, Before, Sorted, Removed, Others, SameCookie, Same;
      AllServed();
      var l := cookies;
      OthersFirst(l, cookie);
      for i := 0 to |l|
        invariant Valid() && held == old(held) && queries == old(queries) && cookie in live && cookie !in cookies
        invariant cookies == Others(l[..i], cookie) + l[i..]
        invariant forall c :: c in live <==> c in old(live) && (c in l ==> c in cookies)
        invariant forall s :: s in servers <==> s in old(servers) && Pointing(live, s) + held[s] > 0
      {
        OthersNext(l, i, cookie);
        if SameCookie(l[i], cookie) {
          OthersRemoved(l, i, cookie);
          RemovedIs(live, l[i]);
          RemovedIs(cookies, l[i]);
          FewerPoint(live, l[i]);
          DeleteCookie(l[i]);
        }
      }
      OthersLast(l, cookie);
    }

    lemma AllServed()
      requires Valid()
      ensures forall s :: s in servers ==> Pointing(live, s) + held[s] > 0
    {
    }
  }

  predicate SameCookie(c: Cookie, d: Cookie) { Same(c.name, d.name) && Same(c.domain, d.domain) }

  /** The cookies that a new one does not replace. */
  function Others(cs: seq<Cookie>, cookie: Cookie): seq<Cookie> {
    if cs == [] then [] else (if SameCookie(cs[0], cookie) then [] else [cs[0]]) + Others(cs[1..], cookie)
  }

  /** `c` comes before `d`. */
  ghost predicate InFront(l: seq<Cookie>, c: Cookie, d: Cookie) {
    exists i, j :: 0 <= i < j < |l| && l[i] == c && l[j] == d
  }

  lemma FirstInFront(c: Cookie, l: seq<Cookie>)
    ensures forall a, b :: InFront(l, a, b) ==> InFront([c] + l, a, b)
    ensures forall b :: b in l ==> InFront([c] + l, c, b)
    ensures forall a, b :: InFront([c] + l, a, b) ==> InFront(l, a, b) || (a == c && b in l)
  {
    var r := [c] + l;
    forall a, b | InFront(l, a, b) ensures InFront(r, a, b) {
      var i, j :| 0 <= i < j < |l| && l[i] == a && l[j] == b;
      assert r[i + 1] == a && r[j + 1] == b;
    }
    forall b | b in l ensures InFront(r, c, b) {
      var j :| 0 <= j < |l| && l[j] == b;
      assert r[0] == c && r[j + 1] == b;
    }
    forall a, b | InFront(r, a, b) ensures InFront(l, a, b) || (a == c && b in l) {
      var i, j :| 0 <= i < j < |r| && r[i] == a && r[j] == b;
      assert l[j - 1] == b && (i > 0 ==> l[i - 1] == a);
    }
  }

  /** Just the cookies of another name or another domain are kept, in their order. */
  lemma {:induction false} OthersAre(l: seq<Cookie>, cookie: Cookie)
    ensures forall c :: c in Others(l, cookie) <==>
            c in l && !(Same(c.name, cookie.name) && Same(c.domain, cookie.domain))
    ensures forall a, b :: a in Others(l, cookie) && b in Others(l, cookie) && InFront(l, a, b) ==>
            InFront(Others(l, cookie), a, b)
  {
    hide Same, InFront;
    if l == [] {
      InFrontIn([]);
    } else {
      assert l == [l[0]] + l[1..];
      var rest := Others(l[1..], cookie);
      OthersAre(l[1..], cookie);
      FirstInFront(l[0], l[1..]);
      FirstInFront(l[0], rest);
      InFrontIn(l[1..]);
      assert [] + rest == rest;
      forall a, b | a in Others(l, cookie) && b in Others(l, cookie) && InFront(l, a, b)
        ensures InFront(Others(l, cookie), a, b)
      {
        assert InFront([l[0]] + l[1..], a, b);
        if InFront(l[1..], a, b) { assert a in rest && b in rest && InFront(rest, a, b); }
      }
    }
  }

  lemma InFrontIn(l: seq<Cookie>)
    ensures forall a, b :: InFront(l, a, b) ==> a in l && b in l
  {
  }

  lemma FewerPoint(cs: seq<Cookie>, c: Cookie)
    requires c in cs
    ensures forall s :: Pointing(Removed(cs, c), s) <= Pointing(cs, s)
  {
    hide Pointing, Removed;
    forall s ensures Pointing(Removed(cs, c), s) <= Pointing(cs, s) { RemovedPoints(cs, c, s); }
  }

  lemma OthersNext(l: seq<Cookie>, i: nat, cookie: Cookie)
    requires i < |l|
    ensures var c := l[i];
            l[i..] == [c] + l[i + 1..]
            && Others(l[..i + 1], cookie) + l[i + 1..]
               == if SameCookie(c, cookie) then Others(l[..i], cookie) + l[i + 1..] else Others(l[..i], cookie) + l[i..]
  {
    assert l[..i + 1] == l[..i] + [l[i]];
    OthersConcat(l[..i], l[i], cookie);
  }

  lemma {:induction false} OthersConcat(l: seq<Cookie>, c: Cookie, cookie: Cookie)
    ensures Others(l + [c], cookie) == Others(l, cookie) + if SameCookie(c, cookie) then [] else [c]
  {
    if l == [] {
      assert [c][1..] == [] && [] + [c] == [c];
    } else {
      assert (l + [c])[0] == l[0] && (l + [c])[1..] == l[1..] + [c];
      OthersConcat(l[1..], c, cookie);
    }
  }

  lemma {:induction false} RemovedMiddle<T>(a: seq<T>, x: T, b: seq<T>)
    requires NoDup(a + ([x] + b))
    ensures Removed(a + ([x] + b), x) == a + b
  {
    var l := a + ([x] + b);
    if a == [] {
      assert l == [x] + b && l[1..] == b;
    } else {
      assert l[0] == a[0] && l[|a|] == x && l[1..] == a[1..] + ([x] + b);
      RemovedMiddle(a[1..], x, b);
    }
  }

  lemma OthersFirst(l: seq<Cookie>, cookie: Cookie)
    ensures Others(l[..0], cookie) + l[0..] == l
  {
  }

  lemma OthersLast(l: seq<Cookie>, cookie: Cookie)
    ensures Others(l[..|l|], cookie) + l[|l|..] == Others(l, cookie)
  {
    assert l[..|l|] == l && l[|l|..] == [];
  }

  /** The first cookie that has not been looked at. */
  lemma OthersRemoved(l: seq<Cookie>, i: nat, cookie: Cookie)
    requires i < |l| && NoDup(Others(l[..i], cookie) + l[i..])
    ensures var rest := Others(l[..i], cookie) + l[i..];
            l[i] in rest && Removed(rest, l[i]) == Others(l[..i], cookie) + l[i + 1..]
  {
    var before := Others(l[..i], cookie);
    assert l[i..] == [l[i]] + l[i + 1..];
    assert (before + l[i..])[|before|] == l[i];
    RemovedMiddle(before, l[i], l[i + 1..]);
  }

  lemma {:induction false} NonePointLeft(cs: seq<Cookie>, s: CookieServer)
    requires Pointing(cs, s) == 0
    ensures forall c :: c in cs ==> c.server != s
  {
    if cs != [] { NonePointLeft(cs[1..], s); }
  }

  lemma RemovedIs<T>(l: seq<T>, x: T)
    requires NoDup(l)
    ensures forall y :: y in Removed(l, x) <==> y in l && y != x
    ensures x !in l ==> Removed(l, x) == l
  {
    RemovedNoDup(l, x);
  }

  lemma FirstPoints(c: Cookie, cs: seq<Cookie>)
    ensures forall s :: Pointing([c] + cs, s) == (if c.server == s then 1 else 0) + Pointing(cs, s)
  {
    assert ([c] + cs)[1..] == cs;
  }

  lemma {:induction false} NonePoint(cs: seq<Cookie>, s: CookieServer)
    requires forall c :: c in cs ==> c.server != s
    ensures Pointing(cs, s) == 0
  {
    if cs != [] { NonePoint(cs[1..], s); }
  }
}
