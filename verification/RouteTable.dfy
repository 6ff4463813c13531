/** The kernel's IPv4 route table, which entries are default routes, and the
    router that keeps a single one of them (internal/router/router.go). */
module RouteTable {
  import opened Prelude
  import opened Addresses

  type Byte = x: int | 0 <= x < 256

  /** net.IPNet: an address of 4 or 16 bytes and a mask, which may be missing. */
  datatype Prefix = Prefix(ip: seq<Byte>, mask: Option<seq<Byte>>)

  /** A destination of None is the kernel's own notation for a default route. */
  datatype Route = Route(dst: Option<Prefix>, gateway: Option<IPv4>, link: int, metric: int)

  const ZERO4: seq<Byte> := [0, 0, 0, 0]
  const MAPPED: seq<Byte> := [0, 0, 0, 0, 0, 0, 0, 0, 0, 0, 255, 255]

  /** 0.0.0.0/0, its address in the 16-byte form of net.IPv4. */
  const DEFAULT_DST := Prefix(MAPPED + ZERO4, Some(ZERO4))

  /** IP.To4 */
  function To4(ip: seq<Byte>): Option<seq<Byte>> {
    if |ip| == 4 then Some(ip)
    else if |ip| == 16 && ip[..12] == MAPPED then Some(ip[12..])
    else None
  }

  /** The leading ones of a mask byte whose ones all lead, -1 for any other. */
  function ByteOnes(b: Byte): int {
    if b == 0 then 0 else if b == 128 then 1 else if b == 192 then 2 else if b == 224 then 3
    else if b == 240 then 4 else if b == 248 then 5 else if b == 252 then 6 else if b == 254 then 7
    else if b == 255 then 8 else -1
  }

  predicate AllZero(m: seq<Byte>) {
    forall i :: 0 <= i < |m| ==> m[i] == 0
  }

  function MaskOnes(m: seq<Byte>): int {
    if m == [] then 0
    else if m[0] == 255 then
      var rest := MaskOnes(m[1..]);
      if rest == -1 then -1 else 8 + rest
    else if AllZero(m[1..]) then ByteOnes(m[0])
    else -1
  }

  /** IPMask.Size: ones and bits, both 0 when the ones do not all lead. */
  function MaskSize(m: seq<Byte>): (int, int) {
    if MaskOnes(m) == -1 then (0, 0) else (MaskOnes(m), 8 * |m|)
  }

  /** isDefaultV4 */
  predicate IsDefaultV4(r: Route) {
    match r.dst
    case None => true
    case Some(p) =>
      match To4(p.ip)
      case None => false
      case Some(ip4) => ip4 == ZERO4 && p.mask.Some? && MaskSize(p.mask.value) == (0, 32)
  }

  lemma {:induction false} MaskOnesZero(m: seq<Byte>)
    ensures MaskOnes(m) >= -1
    ensures MaskOnes(m) == 0 <==> AllZero(m)
  {
    if m != [] && m[0] == 255 {
      MaskOnesZero(m[1..]);
    } else if m != [] {
      assert AllZero(m) <==> m[0] == 0 && AllZero(m[1..]) by {
        assert forall i :: 1 <= i < |m| ==> m[i] == m[1..][i - 1];
      }
    }
  }

  /** The test accepts a missing destination and 0.0.0.0/0 in either address form,
      nothing else. */
  lemma DefaultExactly(r: Route)
    ensures IsDefaultV4(r) <==>
              || r.dst.None?
              || (&& r.dst.value.mask == Some([0, 0, 0, 0])
                  && r.dst.value.ip in {[0, 0, 0, 0], [0, 0, 0, 0, 0, 0, 0, 0, 0, 0, 255, 255, 0, 0, 0, 0]})
  {
    assert MAPPED + ZERO4 == [0, 0, 0, 0, 0, 0, 0, 0, 0, 0, 255, 255, 0, 0, 0, 0];
    if r.dst.Some? {
      var p := r.dst.value;
      assert p.ip in {ZERO4, MAPPED + ZERO4} <==> To4(p.ip) == Some(ZERO4) by {
        if |p.ip| == 16 && p.ip[..12] == MAPPED {
          assert p.ip == p.ip[..12] + p.ip[12..];
        }
        assert (MAPPED + ZERO4)[..12] == MAPPED && (MAPPED + ZERO4)[12..] == ZERO4;
      }
      if p.mask.Some? {
        MaskOnesZero(p.mask.value);
        if |p.mask.value| == 4 && AllZero(p.mask.value) {
          assert p.mask.value == ZERO4;
        }
      }
    }
  }

  // ---------- tables ----------

  /** The entries that are default routes (or those that are not), in order. */
  function Select(rs: seq<Route>, default: bool): seq<Route> {
    if rs == [] then []
    else if IsDefaultV4(rs[0]) == default then [rs[0]] + Select(rs[1..], default)
    else Select(rs[1..], default)
  }

  function Defaults(rs: seq<Route>): seq<Route> {
    Select(rs, true)
  }

  function NonDefaults(rs: seq<Route>): seq<Route> {
    Select(rs, false)
  }

  /** The gateway of the first default route that has one. */
  function FirstGateway(rs: seq<Route>): Option<IPv4> {
    if rs == [] then None
    else if IsDefaultV4(rs[0]) && rs[0].gateway.Some? then rs[0].gateway
    else FirstGateway(rs[1..])
  }

  /** Entry `i` is the first default route that has a gateway. */
  ghost predicate FirstRouted(rs: seq<Route>, i: nat) {
    && i < |rs| && IsDefaultV4(rs[i]) && rs[i].gateway.Some?
    && forall j: nat :: j < i ==> !(IsDefaultV4(rs[j]) && rs[j].gateway.Some?)
  }

  ghost predicate Unrouted(rs: seq<Route>) {
    forall j: nat :: j < |rs| ==> !(IsDefaultV4(rs[j]) && rs[j].gateway.Some?)
  }

  lemma {:induction false} FirstGatewayIs(rs: seq<Route>)
    ensures FirstGateway(rs).None? <==> Unrouted(rs)
    ensures FirstGateway(rs).Some? ==> exists i: nat :: FirstRouted(rs, i) && rs[i].gateway == FirstGateway(rs)
  {
    hide IsDefaultV4;
    if rs != [] {
      FirstGatewayIs(rs[1..]);
      if IsDefaultV4(rs[0]) && rs[0].gateway.Some? {
        assert FirstRouted(rs, 0);
      } else if FirstGateway(rs[1..]).Some? {
        var i: nat :| FirstRouted(rs[1..], i) && rs[1..][i].gateway == FirstGateway(rs[1..]);
        assert forall j: nat :: 0 < j < |rs| ==> rs[j] == rs[1..][j - 1];
        assert FirstRouted(rs, i + 1);
      } else {
        assert forall j: nat :: 0 < j < |rs| ==> rs[j] == rs[1..][j - 1];
      }
    }
  }

  /** One entry alone is a default route, to this gateway, through this link and at
      the best metric. */
  ghost predicate SoleDefault(rs: seq<Route>, gateway: Option<IPv4>, link: int) {
    exists i: nat :: SoleAt(rs, i) && rs[i].gateway == gateway && rs[i].link == link && rs[i].metric == 0
  }

  ghost predicate SoleAt(rs: seq<Route>, i: nat) {
    i < |rs| && forall j: nat :: j < |rs| ==> (IsDefaultV4(rs[j]) <==> j == i)
  }

  lemma {:induction false} NoDefaults(rs: seq<Route>)
    requires Defaults(rs) == []
    ensures forall j: nat :: j < |rs| ==> !IsDefaultV4(rs[j])
  {
    hide IsDefaultV4;
    if rs != [] {
      NoDefaults(rs[1..]);
      assert forall j: nat :: 0 < j < |rs| ==> rs[j] == rs[1..][j - 1];
    }
  }

  lemma {:induction false} SoleByIndex(rs: seq<Route>, r: Route)
    requires Defaults(rs) == [r] && r.metric == 0
    ensures SoleDefault(rs, r.gateway, r.link)
  {
    hide IsDefaultV4;
    assert forall j: nat :: 0 < j < |rs| ==> rs[j] == rs[1..][j - 1];
    if IsDefaultV4(rs[0]) {
      assert Defaults(rs) == [rs[0]] + Defaults(rs[1..]);
      assert rs[0] == Defaults(rs)[0] && |Defaults(rs[1..])| == 0;
      NoDefaults(rs[1..]);
      forall j: nat | 0 < j < |rs|
        ensures !IsDefaultV4(rs[j])
      {
        assert rs[j] == rs[1..][j - 1];
      }
      assert SoleAt(rs, 0);
    } else {
      SoleByIndex(rs[1..], r);
      var i: nat :| SoleAt(rs[1..], i) && rs[1..][i].gateway == r.gateway && rs[1..][i].link == r.link
                    && rs[1..][i].metric == 0;
      forall j: nat | 0 < j < |rs|
        ensures IsDefaultV4(rs[j]) <==> j == i + 1
      {
        assert rs[j] == rs[1..][j - 1];
      }
      assert SoleAt(rs, i + 1);
    }
  }

  /** The table after one entry equal to `r` is gone. */
  function Without(rs: seq<Route>, r: Route): seq<Route> {
    if rs == [] then []
    else if rs[0] == r then rs[1..]
    else [rs[0]] + Without(rs[1..], r)
  }

  lemma {:induction false} SelectConcat(a: seq<Route>, b: seq<Route>, default: bool)
    ensures Select(a + b, default) == Select(a, default) + Select(b, default)
  {
    if a == [] {
      assert a + b == b;
    } else {
      assert (a + b)[1..] == a[1..] + b;
      SelectConcat(a[1..], b, default);
    }
  }

  lemma SplitConcat(a: seq<Route>, b: seq<Route>)
    ensures Defaults(a + b) == Defaults(a) + Defaults(b)
    ensures NonDefaults(a + b) == NonDefaults(a) + NonDefaults(b)
  {
    SelectConcat(a, b, true);
    SelectConcat(a, b, false);
  }

  lemma SelectOne(r: Route)
    ensures Defaults([r]) == if IsDefaultV4(r) then [r] else []
    ensures NonDefaults([r]) == if IsDefaultV4(r) then [] else [r]
  {
    var one := [r];
    assert one[1..] == [];
    assert Select(one[1..], true) == [] && Select(one[1..], false) == [];
  }

  lemma {:induction false} NonDefaultsPure(rs: seq<Route>)
    ensures forall r :: r in NonDefaults(rs) ==> !IsDefaultV4(r)
    ensures Defaults(NonDefaults(rs)) == []
    ensures NonDefaults(NonDefaults(rs)) == NonDefaults(rs)
  {
    if rs != [] {
      NonDefaultsPure(rs[1..]);
      var rest := NonDefaults(rs[1..]);
      if !IsDefaultV4(rs[0]) {
        assert NonDefaults(rs) == [rs[0]] + rest;
        SplitConcat([rs[0]], rest);
      }
    }
  }

  lemma {:induction false} WithoutMiddle(a: seq<Route>, r: Route, b: seq<Route>)
    requires r !in a
    ensures Without(a + [r] + b, r) == a + b
  {
    if a == [] {
      assert [] + [r] + b == [r] + b;
      assert ([r] + b)[1..] == b;
    } else {
      assert (a + [r] + b)[1..] == a[1..] + [r] + b;
      WithoutMiddle(a[1..], r, b);
      assert a == [a[0]] + a[1..];
      assert [a[0]] + (a[1..] + b) == a + b;
    }
  }

  lemma {:induction false} FirstGatewayOfDefaults(rs: seq<Route>)
    ensures FirstGateway(Defaults(rs)) == FirstGateway(rs)
  {
    if rs != [] {
      FirstGatewayOfDefaults(rs[1..]);
      if IsDefaultV4(rs[0]) {
        assert Defaults(rs) == [rs[0]] + Defaults(rs[1..]);
      } else {
        assert Defaults(rs) == Defaults(rs[1..]);
      }
    }
  }

  lemma SoleGateway(rs: seq<Route>, r: Route)
    requires Defaults(rs) == [r] && IsDefaultV4(r) && r.gateway.Some?
    ensures FirstGateway(rs) == r.gateway
  {
    FirstGatewayOfDefaults(rs);
  }

  /** Deleting the default routes one by one: after `i` entries the table is the
      kept part followed by the rest. */
  function Swept(rs: seq<Route>, i: nat): seq<Route>
    requires i <= |rs|
  {
    NonDefaults(rs[..i]) + rs[i..]
  }

  lemma KeptNext(rs: seq<Route>, i: nat)
    requires i < |rs|
    ensures NonDefaults(rs[..i + 1]) == NonDefaults(rs[..i]) + if IsDefaultV4(rs[i]) then [] else [rs[i]]
    ensures IsDefaultV4(rs[i]) ==> rs[i] !in NonDefaults(rs[..i])
  {
    assert rs[..i + 1] == rs[..i] + [rs[i]];
    SplitConcat(rs[..i], [rs[i]]);
    SelectOne(rs[i]);
    NonDefaultsPure(rs[..i]);
  }

  lemma SweptNext(rs: seq<Route>, i: nat)
    requires i < |rs|
    ensures IsDefaultV4(rs[i]) ==> rs[i] in Swept(rs, i) && Without(Swept(rs, i), rs[i]) == Swept(rs, i + 1)
    ensures !IsDefaultV4(rs[i]) ==> Swept(rs, i + 1) == Swept(rs, i)
  {
    hide NonDefaults, IsDefaultV4, Without;
    KeptNext(rs, i);
    var kept := NonDefaults(rs[..i]);
    assert rs[i..] == [rs[i]] + rs[i + 1..];
    assert Swept(rs, i) == kept + [rs[i]] + rs[i + 1..];
    if IsDefaultV4(rs[i]) {
      WithoutMiddle(kept, rs[i], rs[i + 1..]);
    }
  }

  /** However far the sweep got: the other routes are all there in their order,
      and what is left of the defaults is the end of the old list of them. */
  lemma SweptKeeps(rs: seq<Route>, i: nat)
    requires i <= |rs|
    ensures NonDefaults(Swept(rs, i)) == NonDefaults(rs)
    ensures Defaults(Swept(rs, i)) == Defaults(rs[i..])
    ensures |Defaults(rs[i..])| <= |Defaults(rs)|
    ensures Defaults(rs[i..]) == Defaults(rs)[|Defaults(rs)| - |Defaults(rs[i..])|..]
  {
    NonDefaultsPure(rs[..i]);
    SplitConcat(NonDefaults(rs[..i]), rs[i..]);
    SplitConcat(rs[..i], rs[i..]);
    assert rs == rs[..i] + rs[i..];
  }

  /** `b` is `a` with `r` put in at some place. */
  predicate InsertedSomewhere(a: seq<Route>, r: Route, b: seq<Route>) {
    exists k :: 0 <= k <= |a| && b == a[..k] + [r] + a[k..]
  }

  lemma InsertedSplit(a: seq<Route>, r: Route, b: seq<Route>)
    requires InsertedSomewhere(a, r, b)
    requires IsDefaultV4(r) && Defaults(a) == []
    ensures Defaults(b) == [r] && NonDefaults(b) == NonDefaults(a)
  {
    var k :| 0 <= k <= |a| && b == a[..k] + [r] + a[k..];
    assert a == a[..k] + a[k..];
    SplitConcat(a[..k], a[k..]);
    SplitConcat(a[..k] + [r], a[k..]);
    SplitConcat(a[..k], [r]);
    SelectOne(r);
  }
}

module Routers {
  import opened Prelude
  import opened Addresses
  import opened RouteTable

  /** The kernel as netlink shows it. Each request counts one operation; request
      number i fails when `fails(i)`. */
  class Kernel {
    var routes: seq<Route>
    var links: map<string, int>
    var ops: nat
    const fails: nat -> bool

    constructor (routes: seq<Route>, links: map<string, int>, fails: nat -> bool)
      ensures this.routes == routes && this.links == links && this.fails == fails && ops == 0
    {
      this.routes, this.links, this.fails, this.ops := routes, links, fails, 0;
    }

    /** Somebody else sets the table. */
    method Overwrite(routes: seq<Route>)
      modifies this`routes
      ensures this.routes == routes
    {
      this.routes := routes;
    }

    method LinkByName(name: string) returns (index: Option<int>)
      modifies this`ops
      ensures ops == old(ops) + 1
      ensures index == if fails(old(ops)) || name !in links then None else Some(links[name])
    {
      ops := ops + 1;
      index := if fails(ops - 1) || name !in links then None else Some(links[name]);
    }

    method RouteList() returns (list: Option<seq<Route>>)
      modifies this`ops
      ensures ops == old(ops) + 1
      ensures list == if fails(old(ops)) then None else Some(routes)
    {
      ops := ops + 1;
      list := if fails(ops - 1) then None else Some(routes);
    }

    method RouteDel(r: Route) returns (ok: bool)
      modifies this`ops, this`routes
      ensures ops == old(ops) + 1
      ensures ok <==> !fails(old(ops)) && r in old(routes)
      ensures routes == if ok then Without(old(routes), r) else old(routes)
    {
      ops := ops + 1;
      ok := !fails(ops - 1) && r in routes;
      if ok {
        routes := Without(routes, r);
      }
    }

    /** Refuses an entry that is there already; where a new one is listed is up to
        the kernel. */
    method RouteAdd(r: Route) returns (ok: bool)
      modifies this`ops, this`routes
      ensures ops == old(ops) + 1
      ensures ok <==> !fails(old(ops)) && r !in old(routes)
      ensures ok ==> InsertedSomewhere(old(routes), r, routes)
      ensures !ok ==> routes == old(routes)
    {
      ops := ops + 1;
      ok := !fails(ops - 1) && r !in routes;
      if ok {
        var k :| 0 <= k <= |routes|;
        routes := routes[..k] + [r] + routes[k..];
      }
    }
  }

  datatype DefaultRead = ReadFailed | Read(gateway: Option<IPv4>)

  class Router {
    const egress: string
    const kernel: Kernel

    constructor (egress: string, kernel: Kernel)
      ensures this.egress == egress && this.kernel == kernel
    {
      this.egress, this.kernel := egress, kernel;
    }

    /** No request numbered from `from` on, before the next one, fails. */
    ghost predicate Smooth(from: nat)
      reads kernel
    {
      forall i :: from <= i < kernel.ops ==> !kernel.fails(i)
    }

    /** Deletes every default route of one listing of the table. On failure the
        other routes are still all there, and the defaults left are the end of
        the old list of them. */
    method RemoveDefault() returns (ok: bool)
      modifies kernel`ops, kernel`routes
      ensures kernel.ops > old(kernel.ops)
      ensures exists i :: 0 <= i <= |old(kernel.routes)| && kernel.routes == Swept(old(kernel.routes), i)
      ensures ok ==> kernel.routes == NonDefaults(old(kernel.routes))
      ensures Smooth(old(kernel.ops)) ==> ok
    {
      var list := kernel.RouteList();
      ghost var before := kernel.routes;
      assert Swept(before, 0) == before;
      if list.None? {
        return false;
      }
      var rs := list.value;
      for i := 0 to |rs|
        invariant rs == before
        invariant kernel.routes == Swept(before, i)
        invariant kernel.ops > old(kernel.ops)
      {
        SweptNext(rs, i);
        if IsDefaultV4(rs[i]) {
          var deleted := kernel.RouteDel(rs[i]);
          if !deleted {
            return false;
          }
        }
      }
      assert rs[..|rs|] == rs && rs[|rs|..] == [];
      ok := true;
    }

    /** Points the default route at `gw`. Other routes always survive, in order.
        Success leaves exactly one default route, to `gw` through the egress link. A
        missing link or gateway leaves the table as it was; any later failure
        leaves the end of the old list of default routes. Nothing but a failing
        request, a missing link or a missing gateway makes it fail. */
    method ReplaceDefault(gw: Option<IPv4>) returns (ok: bool)
      modifies kernel`ops, kernel`routes
      ensures NonDefaults(kernel.routes) == NonDefaults(old(kernel.routes))
      ensures ok ==> egress in kernel.links && gw.Some? && SoleDefault(kernel.routes, gw, kernel.links[egress])
      ensures ok ==> FirstGateway(kernel.routes) == gw
      ensures egress !in kernel.links || gw.None? ==> !ok && kernel.routes == old(kernel.routes)
      ensures !ok ==> exists i :: 0 <= i <= |Defaults(old(kernel.routes))|
                        && Defaults(kernel.routes) == Defaults(old(kernel.routes))[i..]
      ensures Smooth(old(kernel.ops)) && egress in kernel.links && gw.Some? ==> ok
      ensures kernel.ops >= old(kernel.ops)
    {
      ghost var before := kernel.routes;
      assert Defaults(before)[0..] == Defaults(before);
      var idx := kernel.LinkByName(egress);
      if idx.None? {
        return false;
      }
      if gw.None? {
        return false;
      }
      var removed := RemoveDefault();
      ghost var i :| 0 <= i <= |before| && kernel.routes == Swept(before, i);
      SweptKeeps(before, i);
      if !removed {
        return false;
      }
      NonDefaultsPure(before);
      var route := Route(Some(DEFAULT_DST), gw, idx.value, 0);
      DefaultExactly(route);
      ghost var bare := kernel.routes;
      ok := kernel.RouteAdd(route);
      if ok {
        InsertedSplit(bare, route, kernel.routes);
        SoleGateway(kernel.routes, route);
        SoleByIndex(kernel.routes, route);
      } else {
        assert Defaults(before)[|Defaults(before)|..] == [];
      }
    }

    /** Reads the gateway of the first default route that has one. */
    method CurrentDefault() returns (read: DefaultRead)
      modifies kernel`ops
      ensures kernel.ops == old(kernel.ops) + 1
      ensures read.ReadFailed? <==> kernel.fails(old(kernel.ops))
      ensures read == Read(None) ==> Unrouted(kernel.routes)
      ensures read.Read? && read.gateway.Some? ==>
                exists i: nat :: FirstRouted(kernel.routes, i) && kernel.routes[i].gateway == read.gateway
      ensures read.Read? ==> read.gateway == FirstGateway(kernel.routes)
    {
      var list := kernel.RouteList();
      if list.None? {
        return ReadFailed;
      }
      var rs := list.value;
      FirstGatewayIs(rs);
      for i := 0 to |rs|
        invariant FirstGateway(rs) == FirstGateway(rs[i..])
      {
        if IsDefaultV4(rs[i]) && rs[i].gateway.Some? {
          return Read(rs[i].gateway);
        }
        assert rs[i..][1..] == rs[i + 1..];
      }
      read := Read(None);
    }
  }
}
