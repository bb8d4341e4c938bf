/** The sequential logic of UnityTCPServer: the single-slot string mailbox
    shared between the socket thread and Unity's Update, the proxies created
    in Start, and the per-frame blend of the proxies toward the latest
    decoded snapshot. Each lock(dataLock) block is one atomic method. */
module TcpServer {
  import opened Wrappers
  import opened Geometry
  import opened Framing

  /** Update blends with Time.deltaTime scaled by this factor. */
  const BlendRate: real := 10.0

  /** JsonUtility.FromJson<BoidData>, left abstract: None stands for a thrown
      exception, for null data and for null data.items. */
  type Decoder = string -> Option<seq<Vec3>>

  /** The proxies Start instantiates: `n` of them at the origin, none when
      `n` is not positive. */
  function Origins(n: int): (r: seq<Vec3>)
    ensures |r| == if n > 0 then n else 0
    ensures forall i :: 0 <= i < |r| ==> r[i] == Origin
  {
    if n <= 0 then [] else Origins(n - 1) + [Origin]
  }

  /** The chunks one connection publishes: the reads up to, not including,
      the first empty one (Read returning 0 ends the loop). */
  function StreamChunks(received: seq<string>): (r: seq<string>)
    ensures r <= received
    ensures forall k :: 0 <= k < |r| ==> r[k] != ""
    ensures |r| == |received| || received[|r|] == ""
  {
    if received == [] || received[0] == "" then [] else [received[0]] + StreamChunks(received[1..])
  }

  /** The mailbox after a connection has been served, from `slot` before it. */
  function ServedSlot(slot: string, received: seq<string>): string
  {
    var chunks := StreamChunks(received);
    if chunks == [] then slot else chunks[|chunks| - 1]
  }

  /** Positional update: proxy i is blended toward snapshot entry i for
      i < min(|boids|, |items|); the rest keep their positions. */
  function ApplySnapshot(boids: seq<Vec3>, items: seq<Vec3>, t: real): (r: seq<Vec3>)
    ensures |r| == |boids|
  {
    if |boids| == 0 || |items| == 0 then boids
    else [Lerp(boids[0], items[0], t)] + ApplySnapshot(boids[1..], items[1..], t)
  }

  /** The proxy positions after one Update that took `slot` from the mailbox. */
  function Tick(boids: seq<Vec3>, slot: string, dt: real, decode: Decoder): seq<Vec3>
  {
    if slot == "" then boids
    else match decode(Trim(slot))
      case None => boids
      case Some(items) => ApplySnapshot(boids, items, dt * BlendRate)
  }

  /** `n` Updates in a row that each decode the same snapshot. */
  function RepeatSnapshot(boids: seq<Vec3>, items: seq<Vec3>, t: real, n: nat): (r: seq<Vec3>)
    ensures |r| == |boids|
    decreases n
  {
    if n == 0 then boids else RepeatSnapshot(ApplySnapshot(boids, items, t), items, t, n - 1)
  }

  class UnityTcpServer {
    /** The proxy count configured in the inspector. */
    const numBoids: int
    /** The mailbox; "" means nothing is pending. */
    var lastReceivedJson: string
    /** The proxies' positions, one per boid. */
    var boids: seq<Vec3>

    /** The field initialisers: an empty mailbox and no proxies yet. */
    constructor (numBoids: int)
      ensures this.numBoids == numBoids
      ensures lastReceivedJson == "" && boids == []
    {
      this.numBoids := numBoids;
      lastReceivedJson := "";
      boids := [];
    }

    /** Start: instantiate numBoids proxies at the origin. */
    method Start()
      modifies this`boids
      ensures boids == old(boids) + Origins(numBoids)
    {
      var i := 0;
      while i < numBoids
        invariant 0 <= i <= if numBoids > 0 then numBoids else 0
        invariant boids == old(boids) + Origins(i)
      {
        boids := boids + [Origin];
        i := i + 1;
      }
    }

    /** The lock block in ServerLoop's read loop: a chunk replaces whatever
        was pending. */
    method Publish(data: string)
      modifies this`lastReceivedJson
      ensures lastReceivedJson == data
    {
      lastReceivedJson := data;
    }

    /** ServerLoop's read loop on one connection: every non-empty read is
        published, until a read comes back empty. */
    method ServeConnection(received: seq<string>)
      modifies this`lastReceivedJson
      ensures lastReceivedJson == ServedSlot(old(lastReceivedJson), received)
    {
      var i := 0;
      while i < |received| && received[i] != ""
        invariant 0 <= i <= |received|
        invariant forall k :: 0 <= k < i ==> received[k] != ""
        invariant lastReceivedJson == if i == 0 then old(lastReceivedJson) else received[i - 1]
      {
        Publish(received[i]);
        i := i + 1;
      }
      StreamChunksPrefix(received, i);
    }

    /** The lock block in Update: take what is pending and leave the slot
        empty; on an empty slot this returns "" and changes nothing. */
    method Take() returns (json: string)
      modifies this`lastReceivedJson
      ensures json == old(lastReceivedJson)
      ensures lastReceivedJson == ""
    {
      json := "";
      if lastReceivedJson != "" {
        json := lastReceivedJson;
        lastReceivedJson := "";
      }
    }

    /** Update: take the pending chunk, trim it, decode it and blend the
        proxies toward it; an empty slot or a failed decode moves nothing. */
    method Update(dt: real, decode: Decoder)
      modifies this`lastReceivedJson, this`boids
      ensures lastReceivedJson == ""
      ensures boids == Tick(old(boids), old(lastReceivedJson), dt, decode)
      ensures old(lastReceivedJson) == "" ==> boids == old(boids)
      ensures old(lastReceivedJson) != "" && decode(Trim(old(lastReceivedJson))).None? ==> boids == old(boids)
    {
      var jsonToProcess := Take();
      if jsonToProcess != "" {
        jsonToProcess := Trim(jsonToProcess);
        var data := decode(jsonToProcess);
        if data.Some? {
          var items := data.value;
          var t := dt * BlendRate;
          ghost var before := boids;
          var i := 0;
          while i < |boids| && i < |items|
            invariant |boids| == |before|
            invariant 0 <= i <= |boids| && i <= |items|
            invariant lastReceivedJson == ""
            invariant forall k :: 0 <= k < i ==> boids[k] == Lerp(before[k], items[k], t)
            invariant forall k :: i <= k < |boids| ==> boids[k] == before[k]
          {
            var currentPos := boids[i];
            var targetPos := items[i];
            boids := boids[i := Lerp(currentPos, targetPos, t)];
            i := i + 1;
          }
          forall k | 0 <= k < |boids|
            ensures boids[k] == ApplySnapshot(before, items, t)[k]
          {
            ApplySnapshotAt(before, items, t, k);
          }
        }
      }
    }
  }

  /** If every read before the `n`-th is non-empty and the `n`-th is empty
      or missing, the connection publishes exactly the first `n` reads. */
  lemma {:induction false} StreamChunksPrefix(received: seq<string>, n: nat)
    requires n <= |received|
    requires forall k :: 0 <= k < n ==> received[k] != ""
    requires n == |received| || received[n] == ""
    ensures StreamChunks(received) == received[..n]
  {
    assert |StreamChunks(received)| == n;
  }

  /** Publishing overwrites: after a connection whose reads are all
      non-empty, the mailbox holds exactly the last of them, whatever it held
      before and whatever came earlier. */
  lemma PublishOverwrites(slot: string, received: seq<string>)
    requires |received| > 0
    requires forall k :: 0 <= k < |received| ==> received[k] != ""
    ensures ServedSlot(slot, received) == received[|received| - 1]
  {
    StreamChunksPrefix(received, |received|);
  }

  /** A connection that ends with no data read leaves the mailbox as it was. */
  lemma EmptyConnectionKeepsSlot(slot: string, received: seq<string>)
    requires received == [] || received[0] == ""
    ensures ServedSlot(slot, received) == slot
  {
  }

  /** Index by index, ApplySnapshot writes Lerp(boids[i], items[i], t) below
      min(|boids|, |items|) and keeps every other position. */
  lemma {:induction false} ApplySnapshotAt(boids: seq<Vec3>, items: seq<Vec3>, t: real, i: nat)
    requires i < |boids|
    ensures ApplySnapshot(boids, items, t)[i] ==
      if i < |items| then Lerp(boids[i], items[i], t) else boids[i]
  {
    if |boids| > 0 && |items| > 0 && i > 0 {
      ApplySnapshotAt(boids[1..], items[1..], t, i - 1);
    }
  }

  /** One Update, index by index: the number of proxies never changes; proxy
      i moves only when a snapshot was taken and decoded and i is below its
      length, and then to the blend toward entry i. */
  lemma TickAt(boids: seq<Vec3>, slot: string, dt: real, decode: Decoder, i: nat)
    requires i < |boids|
    ensures |Tick(boids, slot, dt, decode)| == |boids|
    ensures Tick(boids, slot, dt, decode)[i] ==
      if slot != "" && decode(Trim(slot)).Some? && i < |decode(Trim(slot)).value|
      then Lerp(boids[i], decode(Trim(slot)).value[i], dt * BlendRate)
      else boids[i]
  {
    if slot != "" && decode(Trim(slot)).Some? {
      ApplySnapshotAt(boids, decode(Trim(slot)).value, dt * BlendRate, i);
    }
  }

  /** No overshoot: every coordinate of every proxy after an Update lies
      between its old value and its target in the decoded snapshot. */
  lemma TickNoOvershoot(boids: seq<Vec3>, slot: string, dt: real, decode: Decoder, i: nat)
    requires i < |boids|
    requires slot != "" && decode(Trim(slot)).Some? && i < |decode(Trim(slot)).value|
    ensures Between(boids[i], decode(Trim(slot)).value[i], Tick(boids, slot, dt, decode)[i])
  {
    TickAt(boids, slot, dt, decode, i);
    LerpBetween(boids[i], decode(Trim(slot)).value[i], dt * BlendRate);
  }

  /** An Update that takes a chunk which decodes applies that snapshot with
      blend factor dt * BlendRate. */
  lemma TickIsApply(boids: seq<Vec3>, slot: string, dt: real, decode: Decoder)
    requires slot != "" && decode(Trim(slot)).Some?
    ensures Tick(boids, slot, dt, decode) == ApplySnapshot(boids, decode(Trim(slot)).value, dt * BlendRate)
  {
  }

  /** The last of `n + 1` repeated updates is one ApplySnapshot from where
      `n` of them end. */
  lemma {:induction false} RepeatSnapshotSucc(boids: seq<Vec3>, items: seq<Vec3>, t: real, n: nat)
    ensures RepeatSnapshot(boids, items, t, n + 1) == ApplySnapshot(RepeatSnapshot(boids, items, t, n), items, t)
    decreases n
  {
    if n > 0 {
      RepeatSnapshotSucc(ApplySnapshot(boids, items, t), items, t, n - 1);
    }
  }

  /** RepeatSnapshot is what successive Updates produce: after `n` frames
      toward one snapshot, a further Update whose taken chunk decodes to the
      same snapshot yields the state after `n + 1` frames. */
  lemma RepeatSnapshotIsTicks(boids: seq<Vec3>, slot: string, dt: real, decode: Decoder, n: nat)
    requires slot != "" && decode(Trim(slot)).Some?
    ensures Tick(RepeatSnapshot(boids, decode(Trim(slot)).value, dt * BlendRate, n), slot, dt, decode) ==
      RepeatSnapshot(boids, decode(Trim(slot)).value, dt * BlendRate, n + 1)
  {
    var items := decode(Trim(slot)).value;
    RepeatSnapshotSucc(boids, items, dt * BlendRate, n);
    TickIsApply(RepeatSnapshot(boids, items, dt * BlendRate, n), slot, dt, decode);
  }

  /** Repeated Updates toward one snapshot drive each covered proxy along
      Approach, and leave the uncovered ones where they were. */
  lemma {:induction false} RepeatSnapshotAt(boids: seq<Vec3>, items: seq<Vec3>, t: real, n: nat, i: nat)
    requires i < |boids|
    ensures RepeatSnapshot(boids, items, t, n)[i] ==
      if i < |items| then Approach(boids[i], items[i], t, n) else boids[i]
    decreases n
  {
    if n > 0 {
      var next := ApplySnapshot(boids, items, t);
      ApplySnapshotAt(boids, items, t, i);
      RepeatSnapshotAt(next, items, t, n - 1, i);
    }
  }

  /** Monotone approach: under repeated Updates toward one snapshot, a covered
      proxy never leaves the box between its start and its target, and each
      Update brings it no further from the target on any axis. */
  lemma RepeatSnapshotApproaches(boids: seq<Vec3>, items: seq<Vec3>, t: real, n: nat, i: nat)
    requires i < |boids| && i < |items|
    ensures Between(boids[i], items[i], RepeatSnapshot(boids, items, t, n)[i])
    ensures Between(RepeatSnapshot(boids, items, t, n)[i], items[i], RepeatSnapshot(boids, items, t, n + 1)[i])
  {
    RepeatSnapshotAt(boids, items, t, n, i);
    RepeatSnapshotAt(boids, items, t, n + 1, i);
    ApproachMonotone(boids[i], items[i], t, n);
  }

  /** Start on a fresh server: exactly numBoids proxies, all at the origin. */
  method InitialProxies(numBoids: int) returns (positions: seq<Vec3>)
    ensures |positions| == if numBoids > 0 then numBoids else 0
    ensures forall i :: 0 <= i < |positions| ==> positions[i] == Origin
  {
    var server := new UnityTcpServer(numBoids);
    server.Start();
    positions := server.boids;
  }

  /** One connection followed by two takes with no publish in between: the
      first take yields the last chunk read, the second yields "". */
  method TakeTwice(received: seq<string>) returns (first: string, second: string)
    ensures first == ServedSlot("", received)
    ensures |received| > 0 && (forall k :: 0 <= k < |received| ==> received[k] != "") ==> first == received[|received| - 1]
    ensures second == ""
  {
    var server := new UnityTcpServer(0);
    server.ServeConnection(received);
    first := server.Take();
    second := server.Take();
    if |received| > 0 && (forall k :: 0 <= k < |received| ==> received[k] != "") {
      PublishOverwrites("", received);
    }
  }

  /** Start, one connection, then two frames: the first frame applies the
      last chunk; the second finds the mailbox empty and moves nothing. */
  method TwoFrames(numBoids: int, received: seq<string>, dt: real, decode: Decoder)
    returns (afterFirst: seq<Vec3>, afterSecond: seq<Vec3>)
    ensures afterFirst == Tick(Origins(numBoids), ServedSlot("", received), dt, decode)
    ensures afterSecond == afterFirst
  {
    var server := new UnityTcpServer(numBoids);
    server.Start();
    assert server.boids == Origins(numBoids);
    server.ServeConnection(received);
    assert server.lastReceivedJson == ServedSlot("", received);
    server.Update(dt, decode);
    afterFirst := server.boids;
    server.Update(dt, decode);
    afterSecond := server.boids;
  }
}
