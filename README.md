# UnityTCPServer, modelled in Dafny

`UnityTCPServer` is a Unity component that receives boid positions from a
Python simulation over TCP and moves one visual proxy per boid toward them.
A socket thread reads chunks from the connection and drops each one into a
single string slot, `lastReceivedJSON`, under a lock. Once per frame, Unity's
`Update` takes the slot's content and empties it. It then cuts the text just
after its last `'}'`, decodes it as a list of `Vector3`, and blends proxy `i`
toward entry `i` with `Vector3.Lerp(current, target, Time.deltaTime * 10)`.
Only indices below both the proxy count and the list length are blended.

The model has four modules:

- `Wrappers` (wrappers.dfy): `Option`, the result of a decode that may fail.
- `Geometry` (geometry.dfy): `Vec3` over the reals, and `Lerp`. `Lerp`
  clamps its interpolant to [0, 1], as `Vector3.Lerp` does. The module
  proves no overshoot and a monotone approach toward a fixed target.
- `Framing` (framing.dfy): `LastIndexOf` and `Trim`, the framing cut, with
  its prefix, closing-brace, pass-through and idempotence properties.
- `TcpServer` (server.dfy): the class `UnityTcpServer` with the mailbox
  field `lastReceivedJson` and the proxy positions `boids: seq<Vec3>`.
  - Methods: `Start`, `Publish`, `ServeConnection` (one connection's read
    loop), `Take` and `Update`. Each lock block is one atomic method.
  - Specification functions: `Origins`, `StreamChunks`/`ServedSlot`,
    `ApplySnapshot`, `Tick` and `RepeatSnapshot`.
  - Lemmas that relate those functions to each other and to the geometry.

Modelling choices:

- `JsonUtility.FromJson<BoidData>` is a parameter `decode` of type
  `string -> Option<seq<Vec3>>`. `None` covers a thrown exception, `data ==
  null` and `data.items == null`.
- A connection is a sequence of already-decoded read results. An empty
  string stands for `stream.Read` returning 0, which ends the read loop
  (`ServeConnection` stops there).
- `Time.deltaTime` is the `dt` argument of `Update`. The blend factor is
  `dt * BlendRate`, where `BlendRate` is 10.
- `numBoids` is a constant of the object, given to the constructor. In
  Unity it is an inspector field that `Start` reads once.

The framing is exactly what the code does, which is less than its comments
suggest. The comment at Unity/UnityTCPServer.cs:80-82 says that a robust
version would accumulate the buffer and split it on `'\n'`, and that this one
does not. Each read replaces the slot outright, so nothing carries over
between reads (`PublishOverwrites`). The comment at
Unity/UnityTCPServer.cs:119-120 says that when several JSON objects arrive
stuck together, the last valid one is taken. The cut at
Unity/UnityTCPServer.cs:121-123 does not do that. It keeps everything up to
the last `'}'`, including the earlier messages in the same chunk
(`TrimKeepsEarlierMessages`).

## Model

| member | source | states |
|---|---|---|
| `Geometry.Clamp01` | Unity/UnityTCPServer.cs:138 | the interpolant Vector3.Lerp uses is in [0, 1], equals `t` inside that range and saturates outside it |
| `Geometry.LerpBetween` | Unity/UnityTCPServer.cs:138 | for any interpolant, every coordinate of `Lerp(cur, target, t)` lies between the current value and the target (no overshoot) |
| `Geometry.LerpEndpoints` | Unity/UnityTCPServer.cs:138 | an interpolant of at most 0 leaves the position unchanged; one of at least 1 lands exactly on the target |
| `Geometry.LerpOffset` | Unity/UnityTCPServer.cs:138 | one blend multiplies the offset to the target on each axis by `1 - Clamp01(t)`, a factor in [0, 1] |
| `Geometry.ApproachMonotone` | Unity/UnityTCPServer.cs:132-138 | after any number of blends toward a fixed target the position stays between start and target, and each further blend stays between the previous position and the target |
| `Geometry.ApproachReaches` | Unity/UnityTCPServer.cs:138 | with an interpolant of at least 1, one or more blends end exactly on the target |
| `Framing.LastIndexOf` | Unity/UnityTCPServer.cs:121 | the result is -1 exactly when the character is absent; otherwise it is an index holding the character with no occurrence after it |
| `Framing.Trim` | Unity/UnityTCPServer.cs:121-123 | the result is a prefix of the input; if the input has a `'}'` the result ends with its last `'}'` and nothing after it is kept; with no `'}'` the result is empty |
| `Framing.TrimClosed` | Unity/UnityTCPServer.cs:122 | an input whose last character is `'}'` is returned unchanged |
| `Framing.TrimIdempotent` | Unity/UnityTCPServer.cs:121-123 | trimming twice equals trimming once |
| `Framing.TrimDropsTail` | Unity/UnityTCPServer.cs:121-123 | a message ending in `'}'` followed by a tail without `'}'` (such as the sender's newline) trims back to exactly the message |
| `Framing.TrimKeepsEarlierMessages` | Unity/UnityTCPServer.cs:119-123 | two concatenated messages followed by a `'}'`-free tail trim to both messages: the earlier one is not dropped |
| `TcpServer.Origins` | Unity/UnityTCPServer.cs:40-44 | `numBoids` positions, all `Vector3.zero`; none when `numBoids` is not positive |
| `TcpServer.StreamChunks` | Unity/UnityTCPServer.cs:75 | the chunks a connection publishes are a prefix of its reads, all non-empty, ending at the first empty read or at the end |
| `TcpServer.UnityTcpServer.constructor` | Unity/UnityTCPServer.cs:30-33 | the mailbox starts empty and there are no proxies yet |
| `TcpServer.UnityTcpServer.Start` | Unity/UnityTCPServer.cs:40-44 | the loop appends exactly `Origins(numBoids)` to the proxy list |
| `TcpServer.UnityTcpServer.Publish` | Unity/UnityTCPServer.cs:84-87 | the slot holds exactly the new chunk; the proxies are not touched |
| `TcpServer.UnityTcpServer.ServeConnection` | Unity/UnityTCPServer.cs:75-88 | after the read loop the slot is `ServedSlot(old slot, reads)`: the last chunk before the first empty read, or the old slot if there was none |
| `TcpServer.UnityTcpServer.Take` | Unity/UnityTCPServer.cs:105-112 | returns the pending content and leaves the slot empty; on an empty slot it returns `""` and the slot stays empty |
| `TcpServer.UnityTcpServer.Update` | Unity/UnityTCPServer.cs:100-147 | the slot ends empty and the proxies become `Tick(old proxies, old slot, dt, decode)`; an empty slot or a failed decode leaves every proxy unchanged |
| `TcpServer.StreamChunksPrefix` | Unity/UnityTCPServer.cs:75-88 | if the first `n` reads are non-empty and read `n` is empty or absent, the connection publishes exactly those `n` reads |
| `TcpServer.PublishOverwrites` | Unity/UnityTCPServer.cs:75-87 | after a connection of non-empty reads, the slot holds exactly the last one, whatever it held before; earlier chunks are lost, not accumulated |
| `TcpServer.EmptyConnectionKeepsSlot` | Unity/UnityTCPServer.cs:75 | a connection whose first read is empty leaves the slot as it was |
| `TcpServer.ApplySnapshotAt` | Unity/UnityTCPServer.cs:129-138 | proxy `i` becomes `Lerp(boids[i], items[i], t)` when `i < min(boids.Count, items.Count)` and keeps its position otherwise |
| `TcpServer.TickAt` | Unity/UnityTCPServer.cs:115-140 | one Update never changes the number of proxies; proxy `i` moves only when the slot was non-empty, the decode succeeded and `i` is below the snapshot's length, and then to the blend toward entry `i` with factor `dt * 10` |
| `TcpServer.TickNoOvershoot` | Unity/UnityTCPServer.cs:132-138 | every coordinate of a moved proxy lies between its old value and its target |
| `TcpServer.TickIsApply` | Unity/UnityTCPServer.cs:115-140 | an Update whose taken chunk is non-empty and decodes applies that snapshot to the proxies with blend factor `dt * 10` |
| `TcpServer.RepeatSnapshotIsTicks` | Unity/UnityTCPServer.cs:100-147 | after `n` frames toward one snapshot, one more Update whose chunk decodes to that snapshot gives the state after `n + 1` frames, so `RepeatSnapshot` is what successive Updates produce |
| `TcpServer.RepeatSnapshotAt` | Unity/UnityTCPServer.cs:129-138 | `n` applications of the same snapshot (successive Updates, by `RepeatSnapshotIsTicks`) move a covered proxy along `n` successive blends and leave uncovered proxies where they were |
| `TcpServer.RepeatSnapshotApproaches` | Unity/UnityTCPServer.cs:132-138 | under repeated Updates toward one snapshot a covered proxy stays between its start and its target, and each Update brings it no further from the target on any axis |
| `TcpServer.InitialProxies` | Unity/UnityTCPServer.cs:40-44 | after construction and `Start` there are exactly `numBoids` proxies (none if it is not positive), all at the origin |
| `TcpServer.TakeTwice` | Unity/UnityTCPServer.cs:105-112 | after one connection, a first take yields the last chunk read and a second take with no publish in between yields `""` |
| `TcpServer.TwoFrames` | Unity/UnityTCPServer.cs:100-147 | starting, serving one connection and running two frames: the first frame applies the last chunk, the second finds the slot empty and moves no proxy |

## Left out

- Socket plumbing is not modelled. This covers `IPAddress.Parse`, `TcpListener`, `AcceptTcpClient`, `NetworkStream.Read`, `client.Close`, the outer accept loop and the catch in `ServerLoop` (Unity/UnityTCPServer.cs:57-97). It is I/O; a connection is only the sequence of its reads.
- UTF-8 decoding of the read buffer (Unity/UnityTCPServer.cs:78) is a library call. Each chunk is an already-decoded string.
- Threads and `lock(dataLock)` are not modelled. Each lock block is one atomic method, and interleavings are not modelled.
- `Start`'s thread creation, `isRunning`, and `OnDestroy`'s `listener.Stop`/`Abort` (Unity/UnityTCPServer.cs:47-50, 150-155) are thread lifecycle and are not modelled.
- `JsonUtility.FromJson` (Unity/UnityTCPServer.cs:125) is foreign code. It is an arbitrary function parameter, assumed deterministic.
- `Vector3` and `Time.deltaTime` are single-precision floats in Unity. The model uses exact reals, so rounding is not captured.
- `Instantiate`, `GameObject`, `transform` and `Debug.Log` are engine wrappers. Proxies are their positions only.
- `string.IsNullOrEmpty`'s null case is not modelled: the slot is never null.
- `ipAddress` and `port` only feed the left-out socket code.
- The Python client (Python/boid_client.py) is not part of this model. The only fact used is that each message is JSON followed by `"\n"`, which `TrimDropsTail` covers.
- RepeatSnapshotApproaches: states per-step monotone approach, and `LerpOffset` states the per-step contraction by `1 - c`. The closed form `(1 - c)^n` over `n` steps is not stated. Products of real variables made that proof unstable under the solver.
