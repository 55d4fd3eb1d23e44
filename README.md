# golang-socketio client: URL builder, open frame, dial and redial

This project models the connection set-up core of the Go socket.io client in
`client.go`:

- `GetUrl` builds the websocket URL of a server from a TLS flag, a host and a
  port: scheme `wss://` or `ws://`, host, `:`, the port as `strconv.Itoa`
  renders it, then the fixed engine.io query `/socket.io/?EIO=3&transport=websocket`.
- The namespace-open frame is `"4"`, the decimal packet type
  `protocol.MessageTypeOpen`, then the namespace. `DialWithNamespace` and
  `RedialWithNamespace` both write it.
- `Dial` and `DialWithNamespace` connect once and give up on the first error.
  `Redial` and `RedialWithNamespace` try once per ticker tick. Each attempt
  overwrites the client's connection, and the loop ends at the first attempt
  that fully succeeds.

Modules:

- `Strconv` (strconv.dfy) renders integers in decimal as `strconv.Itoa` and
  `%d` do. A strict parser, `ParseInt`, accepts exactly those renderings. The
  round trip is proved in both directions.
- `ClientUrl` (url.dfy) holds `GetUrl` and a parser `ParseUrl`. The parser
  splits the host from the port at the last colon. The round trip is proved in
  both directions.
- `OpenFrame` (frame.dfy) holds the open frame and the function that reads a
  namespace back out of it.
- `SocketClient` (client.dfy) holds the `Client` class, whose `conn` field is
  the source's `c.conn` and whose `onDisconnection` field holds the handlers
  registered on disconnection. Everything a client does to the outside world
  goes, in order, into one `Trace` that the caller passes in and that
  outlives the client: each `Connect` call with its URL and result, each
  `WriteMessage` call with its message, its connection and its result, and
  each start of the inbound, outbound and heartbeat goroutines. A connection
  is named by the position in the trace of the connect that opened it. The
  transport is an oracle. Each attempt is an `Outcome(connectOk, writeOk)`,
  and a redial walks an array of outcomes, one per tick. `AttemptEvents` is
  the specification of one attempt's events, `Run` that of a redial's, and
  `FirstSuccess` that of where a redial loop stops.

Behaviour of `client.go` that the model keeps as written:

- When the namespace write fails after a successful reconnect
  (client.go:145-147), `c.conn` keeps the new connection until the next tick
  overwrites it, and nothing closes it. The model keeps that connection in
  `conn`.
- `client.go` fires no `connected` event on redial and has no guard against
  two concurrent redial loops, so the model has neither.

## Model

| member | source | states |
|---|---|---|
| `Strconv.NatToDecimal` | client.go:36 | the rendering of a natural number is a non-empty run of digits with no leading zero, and it is `"0"` exactly for zero |
| `Strconv.IntToDecimal` | client.go:36 | `strconv.Itoa`: starts with `-` exactly for negative values, then canonical digits of the magnitude, never `-0` |
| `Strconv.ParseIntToDecimal` | client.go:36 | parsing the decimal rendering of any integer returns that integer |
| `Strconv.ToDecimalOfParseInt` | client.go:36 | every string the strict parser accepts is the rendering of the value it returns, so the rendering is a bijection onto canonical decimal strings |
| `ClientUrl.GetUrl` | client.go:29-37 | the URL starts with `wss://` exactly when `secure` holds, starts with `ws://` exactly when it does not, and always ends with `/socket.io/?EIO=3&transport=websocket` |
| `ClientUrl.GetUrlAuthority` | client.go:36 | removing the scheme and the query from a built URL leaves exactly host, `:` and the decimal port |
| `ClientUrl.ParseGetUrl` | client.go:29-37 | reading a built URL back, splitting at the last colon, gives the host, the port and the TLS flag it was built from, for every host including ones that contain colons |
| `ClientUrl.GetUrlOfParse` | client.go:29-37 | every URL the parser accepts is exactly the URL `GetUrl` builds from the parsed parts |
| `OpenFrame.OpenNamespaceFrame` | client.go:87 | the frame starts with `4`, ends with the namespace, and its length is one plus the length of the decimal packet type plus the length of the namespace |
| `OpenFrame.OpenedNamespaceOfFrame` | client.go:87 | the namespace is read back from the open frame built for it |
| `OpenFrame.FrameOfOpenedNamespace` | client.go:144 | a frame from which a namespace is read is the open frame for that namespace |
| `OpenFrame.OpenNamespaceFrameInjective` | client.go:87 | two different namespaces never give the same open frame |
| `SocketClient.FirstSuccess` | client.go:117-128 | the stopping tick is an attempt that succeeds, and every earlier attempt fails; when there is none, every attempt fails |
| `SocketClient.PlainRedialStopsNoLater` | client.go:139-156 | when a namespace redial stops, a plain redial over the same outcomes also stops, and no later |
| `SocketClient.FirstSuccessIgnoresLaterTicks` | client.go:117-128 | once a redial has stopped, outcomes of later ticks do not change where it stops |
| `SocketClient.WriteFailureKeepsRetrying` | client.go:142-148 | when the first successful connect is followed by a failed namespace write, the plain loop would stop there but the namespace loop goes on to a later tick |
| `SocketClient.AttemptStartsOnlyOnSuccess` | client.go:142-153 | in one attempt the goroutines start exactly when connect (and, with a handshake, the write) succeeds, only as the attempt's last event, and on the connection the attempt opened |
| `SocketClient.RunKeepsLog` | client.go:117-128 | a redial only appends to the trace: every event recorded before it is left as it was |
| `SocketClient.OneConnectPerTick` | client.go:119-120 | a redial makes exactly one `Connect` call per tick it reaches, in tick order, each with that tick's result |
| `SocketClient.RunWellOrdered` | client.go:142-153 | in every redial, each successful connect is followed at once by the handshake write on that connection (or, with no handshake, by the goroutine start on it); each write is that handshake, on the connection opened by the event just before it; the goroutines start only right after a successful write, or a successful connect when there is no handshake. So there is exactly one handshake per successful connect, in order |
| `SocketClient.RedialWritesDialFrame` | client.go:144 | every write a namespace redial makes is the open frame for its namespace, the same string `DialWithNamespace` writes at client.go:87 |
| `SocketClient.FailuresStartNothing` | client.go:142-148 | attempts that all fail start no goroutines, whether connect or the handshake write fails |
| `SocketClient.StartedOnceAtStop` | client.go:142-153 | a redial that stops has started the goroutines exactly once, as its very last event, on the connection opened at the stopping tick |
| `SocketClient.Client.constructor` | client.go:48 | a new client has no connection and no handlers, and records into the given trace |
| `SocketClient.Client.Connect` | client.go:53 | one `Connect` call with its URL and result is appended to the trace, and `conn` becomes the connection it opened on success or nil on failure |
| `SocketClient.Client.WriteMessage` | client.go:88 | one `WriteMessage` call, with the message, the current connection and its result, is appended to the trace, and nothing else changes |
| `SocketClient.Client.StartLoops` | client.go:58-60 | one start of the three goroutines, on the current connection, is appended to the trace |
| `SocketClient.Dial` | client.go:47-66 | on every path, including the one that returns no client, the trace gains exactly one connect to the URL and, only when it succeeds, one goroutine start after it on the new connection, and nothing else; no client and a connect error exactly when connect fails; otherwise a new client whose `conn` is that connection and whose one handler redials the same URL |
| `SocketClient.DialWithNamespace` | client.go:76-101 | on every path, including both that return no client, the trace gains exactly: the connect; after a successful connect, the open frame for the namespace written on the new connection; and only when that write succeeds, after it, the goroutine start; no client with `ConnectFailed` exactly when connect fails and with `WriteFailed` exactly when connect succeeds and the write fails; otherwise a new client on that connection whose one handler redials with the same URL and namespace |
| `SocketClient.Client.Redial` | client.go:113-129 | stops at the first tick whose connect succeeds; the trace gains exactly the events of one plain attempt per tick up to that one and none after: a connect with the tick's result, and on the stopping tick the goroutine start on the new connection; `conn` is the last attempt's connection or nil; with no success every tick is tried; handlers are unchanged |
| `SocketClient.Client.NamespaceAttempt` | client.go:142-153 | one tick of the namespace redial appends exactly: a connect; after a successful connect, one write of the handshake on the new connection; after a successful write, the goroutine start on it; the tick ends the loop exactly when connect and write both succeed |
| `SocketClient.Client.RedialWriting` | client.go:139-156 | stops at the first tick where both connect and the handshake write succeed; the trace gains exactly one namespace attempt per tick up to that one and none after, including a handshake write after each successful connect whose write then fails; `conn` is the last attempt's connection or nil; handlers are unchanged |
| `SocketClient.Client.RedialWithNamespace` | client.go:135-157 | the namespace redial loop whose handshake is the open frame for the namespace: every write it makes is the same string the initial `DialWithNamespace` writes, since both use the one packet-type constant |

## Left out

- The goroutines `inLoop`, `outLoop` and `pinger` are not modelled, because their bodies are not in `client.go`. Each start of the three is recorded as one `Started` event in the trace.
- `initChannel`, `initMethods`, `closeChannel` and `On` are not part of this model, because they are defined in other files. `Client.Close` (client.go:106-108) is left out too: it only calls `closeChannel`. `On(OnDisconnection, …)` is recorded as an append to `Client.onDisconnection`.
- `transport.Transport.Connect` and `WriteMessage` are oracle outcomes. A failed `Connect` is taken to leave `conn` nil, which is what the websocket transport returns with its error. Errors are reduced to their kind (`ConnectFailed`, `WriteFailed`), not the transport's error value.
- `time.NewTicker` is not modelled, and neither is the `c.initChannel()` call that starts each redial. The one-second spacing and the ticker that is never stopped are left out, and one tick is one loop iteration.
- The numeric value of `protocol.MessageTypeOpen` is left unspecified, because it is defined outside `client.go`. The model declares one constant with no value, and every proof holds whatever its value is.
- SocketClient.Client.RedialWithNamespace: the source builds the open frame on every tick. The model builds it once before the loop, because it is the same string each time.
- `fmt.Sprintf` is not modelled as a library. Only the string it produces for `"4%d%s"` is.
- The race between starting the goroutines and registering the disconnection handler is not modelled, because the model is sequential.
- The connections left open when a namespace write fails are not modelled. Nothing in `client.go` closes them, and the model has no notion of closing.
- Go's `int` is 32 or 64 bits wide, depending on the platform. The model uses unbounded `int`, which is exact here because nothing is computed on the port or the packet type.
- SocketClient.Client.Redial: the source loop never returns when no attempt succeeds. The model walks a finite array of tick outcomes and returns `None` when the array runs out.
- SocketClient.Client.RedialWriting: the source loop never returns when no attempt succeeds. The model walks a finite array of tick outcomes and returns `None` when the array runs out.
