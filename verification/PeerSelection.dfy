/** Choosing the peers whose logs are fetched next (pkg/service/node/node.go, pkg/utils/misc.go). */
module PeerSelection {
  import opened Collections

  datatype Replica = Replica(address: string, raftAddress: string)

  /** The HTTP address configured for a Raft address; empty when there is none. */
  function AddressOf(replicas: seq<Replica>, raft: string): string {
    if replicas == [] then ""
    else if replicas[0].raftAddress == raft then replicas[0].address
    else AddressOf(replicas[1..], raft)
  }

  method GetNodeServerAddressWithRaftAddress(replicas: seq<Replica>, raft: string) returns (address: string)
    ensures address == AddressOf(replicas, raft)
  {
    for i := 0 to |replicas|
      invariant AddressOf(replicas, raft) == AddressOf(replicas[i..], raft)
    {
      if replicas[i].raftAddress == raft { return replicas[i].address; }
    }
    address := "";
  }

  /** The address is that of the first replica with the Raft address. */
  lemma {:induction false} AddressIsFirst(replicas: seq<Replica>, raft: string, k: nat)
    requires k < |replicas| && replicas[k].raftAddress == raft
    requires forall i :: 0 <= i < k ==> replicas[i].raftAddress != raft
    ensures AddressOf(replicas, raft) == replicas[k].address
    decreases k
  {
    if k > 0 {
      AddressIsFirst(replicas[1..], raft, k - 1);
    }
  }

  predicate Listed(replicas: seq<Replica>, raft: string) {
    exists r <- replicas :: r.raftAddress == raft
  }

  predicate DistinctAddresses(replicas: seq<Replica>, servers: seq<string>) {
    forall i, k :: 0 <= i < k < |servers| ==> AddressOf(replicas, servers[i]) != AddressOf(replicas, servers[k])
  }

  predicate Chosen(replicas: seq<Replica>, self: string, exclude: set<string>, server: string) {
    server != self && AddressOf(replicas, server) !in exclude
  }

  /** The addresses a selection may return. */
  function Candidates(replicas: seq<Replica>, servers: seq<string>, self: string, exclude: set<string>): set<string> {
    set s <- servers | Chosen(replicas, self, exclude, s) :: AddressOf(replicas, s)
  }

  function Peers(servers: seq<string>, self: string): seq<string> {
    if servers == [] then []
    else Peers(servers[..|servers| - 1], self)
         + if servers[|servers| - 1] != self then [servers[|servers| - 1]] else []
  }

  /** The addresses of those peers that are not excluded, in the order of the list. */
  function Open(replicas: seq<Replica>, peers: seq<string>, exclude: set<string>): seq<string> {
    if peers == [] then []
    else
      var address := AddressOf(replicas, peers[|peers| - 1]);
      Open(replicas, peers[..|peers| - 1], exclude) + if address !in exclude then [address] else []
  }

  /** What a selection guarantees its caller. */
  ghost predicate Selection(replicas: seq<Replica>, servers: seq<string>, self: string, exclude: set<string>,
                            fanIn: nat, addresses: seq<string>)
  {
    var candidates := Candidates(replicas, servers, self, exclude);
    && NoRepeats(addresses)
    && (forall a <- addresses :: a in candidates)
    && |addresses| == Min(fanIn, |candidates|)
  }

  method GetRandomFanInPeerHTTPAddresses(replicas: seq<Replica>, servers: seq<string>, self: string,
                                         exclude: set<string>, fanIn: nat, draw: nat -> nat)
    returns (addresses: seq<string>)
    requires Drawn(draw) && DistinctAddresses(replicas, servers)
    ensures Selection(replicas, servers, self, exclude, fanIn, addresses)
    ensures self in servers ==> AddressOf(replicas, self) !in addresses
  {
    var peers := OtherServers(servers, self);
    if |peers| < fanIn {
      addresses := OpenAddresses(replicas, peers, exclude);
      OpenCandidates(replicas, servers, self, exclude, peers, addresses);
    } else {
      var shuffled := ShuffledCopy(peers, draw);
      addresses := OpenAddresses(replicas, shuffled, exclude);
      OpenCandidates(replicas, servers, self, exclude, shuffled, addresses);
    }
    if |addresses| > fanIn {
      addresses := addresses[..fanIn];
    }
  }

  method OtherServers(servers: seq<string>, self: string) returns (peers: seq<string>)
    ensures peers == Peers(servers, self)
  {
    peers := [];
    for i := 0 to |servers|
      invariant peers == Peers(servers[..i], self)
    {
      assert servers[..i + 1][..i] == servers[..i];
      if servers[i] != self {
        peers := peers + [servers[i]];
      }
    }
    assert servers[..|servers|] == servers;
  }

  method OpenAddresses(replicas: seq<Replica>, peers: seq<string>, exclude: set<string>)
    returns (addresses: seq<string>)
    ensures addresses == Open(replicas, peers, exclude)
  {
    addresses := [];
    for i := 0 to |peers|
      invariant addresses == Open(replicas, peers[..i], exclude)
    {
      assert peers[..i + 1][..i] == peers[..i];
      var address := GetNodeServerAddressWithRaftAddress(replicas, peers[i]);
      if address !in exclude {
        addresses := addresses + [address];
      }
    }
    assert peers[..|peers|] == peers;
  }

  // ---- the shuffle ----

  /** `origin[k]` is the place element `k` came from, no place twice. */
  ghost predicate Rearranged(before: seq<string>, after: seq<string>, origin: seq<nat>) {
    && |before| == |after| == |origin|
    && (forall k :: 0 <= k < |origin| ==> origin[k] < |before| && after[k] == before[origin[k]])
    && (forall i, k :: 0 <= i < k < |origin| ==> origin[i] != origin[k])
  }

  /** Everything after `last` has moved; up to `last` there are untouched elements and some that came from behind it. */
  ghost predicate MovedAfter(origin: seq<nat>, last: nat) {
    && (forall k :: 0 <= k < |origin| && k <= last ==> origin[k] == k || origin[k] > last)
    && (forall k :: last < k < |origin| ==> origin[k] != k)
    && (last == 0 && |origin| > 1 ==> origin[0] != 0)
  }

  function Swap<T>(s: seq<T>, i: nat, k: nat): seq<T>
    requires i < |s| && k < |s|
  {
    s[i := s[k]][k := s[i]]
  }

  lemma SwapRearranges(before: seq<string>, after: seq<string>, origin: seq<nat>, i: nat, k: nat)
    requires Rearranged(before, after, origin) && k < i < |origin|
    ensures Rearranged(before, Swap(after, i, k), Swap(origin, i, k))
  {
  }

  lemma SwapMoves(before: seq<string>, after: seq<string>, origin: seq<nat>, last: nat, k: nat)
    requires Rearranged(before, after, origin) && k < last < |origin| && MovedAfter(origin, last)
    ensures MovedAfter(Swap(origin, last, k), last - 1)
  {
  }

  ghost predicate MidShuffle(before: seq<string>, after: seq<string>, origin: seq<nat>, last: nat) {
    Rearranged(before, after, origin) && last < |origin| && MovedAfter(origin, last)
  }

  lemma SwapStep(before: seq<string>, after: seq<string>, origin: seq<nat>, last: nat, k: nat)
    requires MidShuffle(before, after, origin, last) && k < last
    ensures MidShuffle(before, Swap(after, last, k), Swap(origin, last, k), last - 1)
  {
    SwapRearranges(before, after, origin, last, k);
    SwapMoves(before, after, origin, last, k);
  }

  lemma SwapKeeps<T>(s: seq<T>, i: nat, k: nat)
    requires k < i < |s|
    ensures multiset(Swap(s, i, k)) == multiset(s)
  {
    assert s == s[..k] + [s[k]] + s[k + 1..i] + [s[i]] + s[i + 1..];
    assert Swap(s, i, k) == s[..k] + [s[i]] + s[k + 1..i] + [s[k]] + s[i + 1..];
  }

  /** The shuffle from position `last` down, `draw(n)` being the random number below `n`. */
  function ShuffleFrom<T>(s: seq<T>, last: nat, draw: nat -> nat): (r: seq<T>)
    requires Drawn(draw) && (last > 0 ==> last < |s|)
    ensures |r| == |s|
    decreases last
  {
    if last == 0 then s else ShuffleFrom(Swap(s, last, draw(last)), last - 1, draw)
  }

  ghost predicate Drawn(draw: nat -> nat) {
    forall n :: n > 0 ==> draw(n) < n
  }

  method Shuffle(a: array<string>, draw: nat -> nat)
    requires Drawn(draw)
    modifies a
    ensures a.Length > 0 ==> a[..] == ShuffleFrom(old(a[..]), a.Length - 1, draw)
  {
    var lastIndex := a.Length - 1;
    while lastIndex > 0
      invariant a.Length > 0 ==> 0 <= lastIndex < a.Length
      invariant a.Length > 0 ==>
                  ShuffleFrom(old(a[..]), a.Length - 1, draw) == ShuffleFrom(a[..], lastIndex, draw)
    {
      Exchange(a, lastIndex, draw(lastIndex));
      lastIndex := lastIndex - 1;
    }
  }

  method Exchange(a: array<string>, i: nat, k: nat)
    requires k < i < a.Length
    modifies a
    ensures a[..] == Swap(old(a[..]), i, k)
  {
    var temp := a[i];
    a[i] := a[k];
    a[k] := temp;
  }

  lemma {:induction false} ShufflePermutes<T>(s: seq<T>, last: nat, draw: nat -> nat)
    requires Drawn(draw) && (last > 0 ==> last < |s|)
    ensures multiset(ShuffleFrom(s, last, draw)) == multiset(s)
    decreases last
  {
    if last > 0 {
      SwapKeeps(s, last, draw(last));
      ShufflePermutes(Swap(s, last, draw(last)), last - 1, draw);
    }
  }

  /** The index drawn never names the element itself, so whatever is drawn no element ends where it started. */
  lemma NoPeerStays(s: seq<string>, draw: nat -> nat) returns (origin: seq<nat>)
    requires Drawn(draw) && |s| > 1
    ensures Rearranged(s, ShuffleFrom(s, |s| - 1, draw), origin)
    ensures forall k :: 0 <= k < |s| ==> origin[k] != k
  {
    origin := OriginsMove(s, s, seq(|s|, (k: nat) => k), |s| - 1, draw);
  }

  lemma {:induction false} OriginsMove(before: seq<string>, after: seq<string>, origin: seq<nat>, last: nat,
                                       draw: nat -> nat) returns (origin': seq<nat>)
    requires Drawn(draw) && MidShuffle(before, after, origin, last)
    ensures MidShuffle(before, ShuffleFrom(after, last, draw), origin', 0)
    decreases last
  {
    if last == 0 {
      origin' := origin;
    } else {
      SwapStep(before, after, origin, last, draw(last));
      origin' := OriginsMove(before, Swap(after, last, draw(last)), Swap(origin, last, draw(last)), last - 1, draw);
    }
  }

  method ShuffledCopy(peers: seq<string>, draw: nat -> nat) returns (shuffled: seq<string>)
    requires Drawn(draw)
    ensures multiset(shuffled) == multiset(peers)
  {
    var a := new string[|peers|](i requires 0 <= i < |peers| => peers[i]);
    assert a[..] == peers;
    Shuffle(a, draw);
    if |peers| > 0 {
      ShufflePermutes(peers, |peers| - 1, draw);
    }
    shuffled := a[..];
  }

  // ---- what is selected ----

  lemma {:induction false} OpenMembers(replicas: seq<Replica>, peers: seq<string>, exclude: set<string>, a: string)
    ensures a in Open(replicas, peers, exclude) <==> a !in exclude && exists s <- peers :: AddressOf(replicas, s) == a
  {
    if peers != [] {
      var init, last := peers[..|peers| - 1], peers[|peers| - 1];
      OpenMembers(replicas, init, exclude, a);
      assert peers == init + [last];
      if AddressOf(replicas, last) == a { assert last in peers; }
    }
  }

  lemma {:induction false} OpenNoRepeats(replicas: seq<Replica>, peers: seq<string>, exclude: set<string>)
    requires DistinctAddresses(replicas, peers)
    ensures NoRepeats(Open(replicas, peers, exclude))
  {
    if peers != [] {
      var init, last := peers[..|peers| - 1], peers[|peers| - 1];
      OpenNoRepeats(replicas, init, exclude);
      OpenMembers(replicas, init, exclude, AddressOf(replicas, last));
    }
  }

  lemma {:induction false} PeersMembers(servers: seq<string>, self: string, s: string)
    ensures s in Peers(servers, self) <==> s in servers && s != self
  {
    if servers != [] {
      PeersMembers(servers[..|servers| - 1], self, s);
      assert servers == servers[..|servers| - 1] + [servers[|servers| - 1]];
    }
  }

  lemma {:induction false} PeersDistinct(replicas: seq<Replica>, servers: seq<string>, self: string)
    requires DistinctAddresses(replicas, servers)
    ensures DistinctAddresses(replicas, Peers(servers, self))
  {
    if servers != [] {
      var init, last := servers[..|servers| - 1], servers[|servers| - 1];
      PeersDistinct(replicas, init, self);
      forall s | s in Peers(init, self) ensures AddressOf(replicas, s) != AddressOf(replicas, last) {
        PeersMembers(init, self, s);
      }
    }
  }

  lemma DistinctPermuted(replicas: seq<Replica>, before: seq<string>, after: seq<string>)
    requires multiset(before) == multiset(after) && DistinctAddresses(replicas, before)
    ensures DistinctAddresses(replicas, after)
  {
    forall i, k | 0 <= i < k < |after| ensures AddressOf(replicas, after[i]) != AddressOf(replicas, after[k]) {
      assert after[i] in multiset(before) && after[k] in multiset(before);
      if after[i] == after[k] {
        TwicePresent(after, i, k);
        OncePresent(before, after[i]) by {
          assert forall x, y :: 0 <= x < y < |before| ==>
                   AddressOf(replicas, before[x]) != AddressOf(replicas, before[y]);
        }
      } else {
        var x :| 0 <= x < |before| && before[x] == after[i];
        var y :| 0 <= y < |before| && before[y] == after[k];
        assert x < y || y < x;
      }
    }
  }

  lemma TwicePresent(s: seq<string>, i: nat, k: nat)
    requires i < k < |s| && s[i] == s[k]
    ensures multiset(s)[s[i]] >= 2
  {
    assert s == s[..k] + [s[k]] + s[k + 1..];
    assert s[i] in s[..k];
  }

  lemma {:induction false} OncePresent(s: seq<string>, x: string)
    requires NoRepeats(s)
    ensures multiset(s)[x] <= 1
  {
    if s != [] {
      OncePresent(s[1..], x);
      assert s == [s[0]] + s[1..];
    }
  }

  /** Shuffled or not, the open addresses are the candidates, each once. */
  lemma OpenCandidates(replicas: seq<Replica>, servers: seq<string>, self: string, exclude: set<string>,
                       peers: seq<string>, addresses: seq<string>)
    requires DistinctAddresses(replicas, servers) && multiset(peers) == multiset(Peers(servers, self))
    requires addresses == Open(replicas, peers, exclude)
    ensures NoRepeats(addresses)
    ensures forall a :: a in addresses <==> a in Candidates(replicas, servers, self, exclude)
    ensures |addresses| == |Candidates(replicas, servers, self, exclude)|
    ensures self in servers ==> AddressOf(replicas, self) !in addresses
  {
    PeersDistinct(replicas, servers, self);
    DistinctPermuted(replicas, Peers(servers, self), peers);
    OpenNoRepeats(replicas, peers, exclude);
    forall a ensures a in addresses <==> a in Candidates(replicas, servers, self, exclude) {
      OpenMembers(replicas, peers, exclude, a);
      forall s ensures s in peers <==> s in servers && s != self {
        PeersMembers(servers, self, s);
        assert s in multiset(peers) <==> s in multiset(Peers(servers, self));
      }
    }
    SizeOfNoRepeats(addresses);
    assert (set a | a in addresses) == Candidates(replicas, servers, self, exclude);
  }
}
