/** Role dealing of src/server.ts: the role manifest `createRoleList` builds, the
    swap loop of `shuffleRoles`, and the positional deal of `assignRoles` into
    the `sheep` and `wolves` channels. The random index of each shuffle step is
    an oracle sequence `js`, one entry per iteration. */
module Dealing {
  import opened Wire

  datatype Role = Sheep | Wolf | None

  const NUM_WOLVES: nat := 1
  const NUM_SHEEP: nat := 2

  /** The manifest `createRoleList` returns. */
  const RoleManifest: seq<Role> := [Wolf, Sheep, Sheep]

  /** `createRoleList`: NUM_WOLVES wolves followed by NUM_SHEEP sheep. */
  method CreateRoleList() returns (roles: seq<Role>)
    ensures roles == RoleManifest
    ensures multiset(roles)[Wolf] == NUM_WOLVES && multiset(roles)[Sheep] == NUM_SHEEP
  {
    roles := [];
    var i := 0;
    while i < NUM_WOLVES
      invariant 0 <= i <= NUM_WOLVES
      invariant |roles| == i && forall k :: 0 <= k < i ==> roles[k] == Wolf
    {
      roles := roles + [Wolf];
      i := i + 1;
    }
    i := 0;
    while i < NUM_SHEEP
      invariant 0 <= i <= NUM_SHEEP
      invariant |roles| == NUM_WOLVES + i
      invariant forall k :: 0 <= k < NUM_WOLVES ==> roles[k] == Wolf
      invariant forall k :: NUM_WOLVES <= k < |roles| ==> roles[k] == Sheep
    {
      roles := roles + [Sheep];
      i := i + 1;
    }
    assert roles == [roles[0], roles[1], roles[2]];
  }

  /** One step of the shuffle loop: `temp = r[i]; r[i] = r[j]; r[j] = temp`. */
  function SwapAt<T>(s: seq<T>, i: nat, j: nat): (r: seq<T>)
    requires i < |s| && j < |s|
    ensures |r| == |s| && multiset(r) == multiset(s)
    ensures r[i] == s[j] && r[j] == s[i]
    ensures forall k :: 0 <= k < |s| && k != i && k != j ==> r[k] == s[k]
  {
    s[i := s[j]][j := s[i]]
  }

  /** Every oracle answer is an index of a sequence of length `n`. */
  predicate InRange(js: seq<nat>, n: nat) {
    forall k :: 0 <= k < |js| ==> js[k] < n
  }

  /** The first |js| iterations of `shuffleRoles`: iteration i swaps position i
      with position js[i]. With |js| == |s| this is the whole loop. */
  function Shuffled<T>(s: seq<T>, js: seq<nat>): (r: seq<T>)
    requires |js| <= |s| && InRange(js, |s|)
    ensures |r| == |s| && multiset(r) == multiset(s)
    decreases |js|
  {
    if js == [] then s
    else SwapAt(Shuffled(s, js[..|js| - 1]), |js| - 1, js[|js| - 1])
  }

  /** The members `assignRoles` pushes onto the channel of role `want`: the
      connection of player i for every i whose dealt role is `want`, in roster
      order. */
  function Channel(roles: seq<Role>, conns: seq<ConnId>, want: Role): (r: seq<ConnId>)
    requires |roles| <= |conns|
    decreases |roles|
  {
    if roles == [] then []
    else
      var n := |roles| - 1;
      Channel(roles[..n], conns, want) + (if roles[n] == want then [conns[n]] else [])
  }

  /** A channel receives as many members as the manifest holds of its role. */
  lemma {:induction false} ChannelSize(roles: seq<Role>, conns: seq<ConnId>, want: Role)
    requires |roles| <= |conns|
    ensures |Channel(roles, conns, want)| == multiset(roles)[want]
    decreases |roles|
  {
    if roles != [] {
      var n := |roles| - 1;
      assert roles == roles[..n] + [roles[n]];
      ChannelSize(roles[..n], conns, want);
    }
  }

  /** Player i joins the channel of `want` exactly when it was dealt `want`, and
      nobody outside the dealt prefix of the roster joins any channel. */
  lemma {:induction false} ChannelMembership(roles: seq<Role>, conns: seq<ConnId>, want: Role, c: ConnId)
    requires |roles| <= |conns| && Distinct(conns)
    ensures c in Channel(roles, conns, want)
        <==> exists i :: 0 <= i < |roles| && conns[i] == c && roles[i] == want
    decreases |roles|
  {
    if roles != [] {
      var n := |roles| - 1;
      ChannelMembership(roles[..n], conns, want, c);
      if c in Channel(roles, conns, want) && c !in Channel(roles[..n], conns, want) {
        assert conns[n] == c && roles[n] == want;
      }
      if exists i :: 0 <= i < |roles| && conns[i] == c && roles[i] == want {
        var i :| 0 <= i < |roles| && conns[i] == c && roles[i] == want;
        if i < n {
          assert roles[..n][i] == roles[i];
        }
      }
    }
  }

  /** Channel members are pairwise different when the roster's are. */
  lemma {:induction false} ChannelDistinct(roles: seq<Role>, conns: seq<ConnId>, want: Role)
    requires |roles| <= |conns| && Distinct(conns)
    ensures Distinct(Channel(roles, conns, want))
    decreases |roles|
  {
    if roles != [] {
      var n := |roles| - 1;
      ChannelDistinct(roles[..n], conns, want);
      if roles[n] == want {
        ChannelMembership(roles[..n], conns, want, conns[n]);
      }
    }
  }

  /** Dealing any arrangement of the manifest (every shuffle result is one)
      over a roster at least as long: one wolf, two sheep, and each of the
      first three players is in the channel of its own role only. */
  lemma DealManifest(roles: seq<Role>, conns: seq<ConnId>)
    requires multiset(roles) == multiset(RoleManifest)
    requires |roles| <= |conns| && Distinct(conns)
    ensures |Channel(roles, conns, Wolf)| == NUM_WOLVES
    ensures |Channel(roles, conns, Sheep)| == NUM_SHEEP
    ensures forall i :: 0 <= i < |roles| ==>
        roles[i] != None &&
        (conns[i] in Channel(roles, conns, Wolf) <==> roles[i] == Wolf) &&
        (conns[i] in Channel(roles, conns, Sheep) <==> roles[i] == Sheep)
  {
    assert multiset(RoleManifest)[Wolf] == 1 && multiset(RoleManifest)[Sheep] == 2;
    assert multiset(RoleManifest)[None] == 0;
    ChannelSize(roles, conns, Wolf);
    ChannelSize(roles, conns, Sheep);
    forall i | 0 <= i < |roles|
      ensures roles[i] != None
      ensures conns[i] in Channel(roles, conns, Wolf) <==> roles[i] == Wolf
      ensures conns[i] in Channel(roles, conns, Sheep) <==> roles[i] == Sheep
    {
      assert roles[i] in multiset(roles);
      ChannelMembership(roles, conns, Wolf, conns[i]);
      ChannelMembership(roles, conns, Sheep, conns[i]);
    }
  }

  /** Any oracle gives a permutation of the manifest. */
  lemma ShufflePermutes(js: seq<nat>)
    requires |js| == |RoleManifest| && InRange(js, |RoleManifest|)
    ensures var r := Shuffled(RoleManifest, js);
      multiset(r) == multiset(RoleManifest) &&
      multiset(r)[Wolf] == NUM_WOLVES && multiset(r)[Sheep] == NUM_SHEEP && multiset(r)[None] == 0
  {
    assert multiset(RoleManifest)[Wolf] == 1 && multiset(RoleManifest)[Sheep] == 2;
    assert multiset(RoleManifest)[None] == 0;
  }
}
