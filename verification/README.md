# Presence registry and link router of linkshare-backend

This project models, in Dafny, the real-time delivery core of the linkshare
backend (`handlers/link.go`). A user's devices open a WebSocket at `/ws` and
are recorded in a process-wide registry `user_id -> device_id -> connection`.
A `POST /links` request stores the link and, when the target device of the
authenticated user is in the registry, pushes the link record to that
connection. Every registry operation runs under one mutex, so each is modelled
as one atomic step on an immutable map.

Modules, one per concept:

- `Wrappers`: `Option`.
- `Links`: the `Link` record (`models/link.go`).
- `Registry`: the two-level table, `Lookup`, `Register`, `Unregister`, the
  no-empty-row invariant and a flat reference view `Entries` keyed by
  `(user, device)`.
- `DeviceId`: `parseDeviceID`, i.e. `fmt.Sscanf(s, "%d", &id)` into a
  zero-initialised 64-bit `int`. The scanner's rules are modelled: leading
  white space is skipped, a newline before the number is an error, end of
  input is an error, one optional sign, a maximal run of decimal digits (at
  least one), out-of-range values are errors, and trailing text is ignored.
  Any error leaves the id at 0. `FormatInt` is the independent decimal
  rendering used to state the round trip.
- `Router`: `SendLink`, the whole `POST /links` decision.
- `Server`: the delivery path as a state machine over events: a `/ws` handler
  registering after its upgrade (`Connect`), the same handler deregistering
  after a read error (`ReadError`), and a send (`Send`). Its invariant says
  every connection in the registry belongs to a session still running under
  that key.

The connection handle is an opaque type parameter `C`. A push is recorded as
a `Delivery(conn, link)`. A failed upgrade is an input (`upgraded == None`).
The database insert's success is a boolean input.

Behaviour of the code that a reader might not expect:

- A malformed `device_id` is not rejected. It parses to 0 and the session
  registers under device 0 (`Server.MalformedDeviceIdRegistersAsZero`). (The repository's test that expects status 400 for
  `device_id=abc` gets it only because its request is not a WebSocket
  handshake, so the upgrade itself fails.)
- No `{"message":"Connected"}` frame is sent: only `Send` steps add deliveries.
- Deregistration does not check which connection the entry holds. When a
  second session takes over a key and the first session then fails, the
  second session's entry is deleted while it keeps running
  (`Server.StaleCloseOrphansNewerSession`).
- The push happens while the registry mutex is held. In this sequential model
  a send is simply one atomic step.
- The pushed record's `id` and `created_at` are whatever the request body
  carried. The INSERT supplies only the user, both device ids and the URL; the
  database gives the stored row its own id and timestamp, which the pushed
  record never carries.

## Model

| member | source | states |
|---|---|---|
| Registry.Lookup | handlers/link.go:57-58 | a connection is found exactly when the user row exists and holds the device, and it is the one stored there; a missing row behaves as an empty one |
| Registry.Register | handlers/link.go:88-93 | afterwards `(user, device)` looks up to the new connection, every other key looks up as before, and the user row exists |
| Registry.Unregister | handlers/link.go:106-111 | afterwards `(user, device)` looks up to nothing, every other key (other users and the user's other devices) looks up as before, and no row is added |
| Registry.RegisterKeepsRowsNonEmpty | handlers/link.go:89-92 | registration keeps the invariant that no user row is empty |
| Registry.UnregisterKeepsRowsNonEmpty | handlers/link.go:107-110 | deregistration keeps the invariant that no user row is empty |
| Registry.UnregisterPrunes | handlers/link.go:107-110 | the user row survives deregistration exactly when the user has another device registered |
| Registry.UnregisterAbsentIsNoOp | handlers/link.go:106-110 | deregistering a key that holds nothing leaves a registry without empty rows unchanged |
| Registry.Entries | handlers/link.go:21-25 | the flat `(user, device)` view holds exactly the keys the two-level lookup finds, with the same connections |
| Registry.EntriesRegister | handlers/link.go:88-93 | registration is a point update of the flat view |
| Registry.EntriesUnregister | handlers/link.go:106-111 | deregistration is a point removal from the flat view |
| Registry.EntriesDetermineTable | handlers/link.go:106-110 | with no empty rows, two registries with the same flat view are equal, so pruning keeps the layout canonical |
| Registry.RegisterThenUnregister | handlers/link.go:88-111 | registering a free key and deregistering it restores the registry exactly |
| Registry.RegisterOverwrites | handlers/link.go:89-92 | a second registration under a key makes the first unreachable: the result equals registering only the second, and the user's other devices are kept |
| Registry.UnregisterIdempotent | handlers/link.go:106-110 | deregistering a key twice equals deregistering it once |
| DeviceId.SkipSpace | handlers/link.go:121 | the scanner skips a run of white space that contains no newline, stops at the first non-space, and fails only when a newline comes first |
| DeviceId.LeadingDigits | handlers/link.go:121 | the number's digits are a prefix of the input, all decimal digits, and maximal |
| DeviceId.ReadSigned | handlers/link.go:121 | after the spaces, a number is read only when a digit comes first or right after one `+` or `-`, and its value is within the 64-bit range |
| DeviceId.ScanInt | handlers/link.go:121 | the `%d` scan succeeds only when, right where the leading spaces end, there is a digit or one sign followed by a digit, and only with a value within the 64-bit range; text like `abc5` fails |
| DeviceId.ParseDeviceID | handlers/link.go:118-123 | the device key is always within the 64-bit range and is 0 whenever the scan fails |
| DeviceId.ReadSignedNumeral | handlers/link.go:121 | after the spaces, a numeral with no sign, `+` or `-` and followed by a non-digit is read as its signed value, or fails when that is outside the 64-bit range |
| DeviceId.ParseNumeral | handlers/link.go:118-123 | a numeral (leading zeros allowed) with no sign, `+` or `-`, followed by text that does not continue it, parses to its signed value, or to 0 when that is outside the 64-bit range |
| DeviceId.ParseFormatted | handlers/link.go:118-123 | any 64-bit integer rendered in decimal and followed by non-digit text parses back to itself |
| DeviceId.ParseOverflowIsZero | handlers/link.go:118-123 | a decimal numeral outside the 64-bit range parses to 0 |
| DeviceId.NoLeadingIntegerIsZero | handlers/link.go:118-123 | empty input, and input whose first character is not a space, sign or digit (such as `abc`), parses to 0 |
| DeviceId.BareSignIsZero | handlers/link.go:118-123 | a sign not followed by a digit parses to 0 |
| DeviceId.LeadingSpaceSkipped | handlers/link.go:118-123 | a leading space other than newline does not change the key; a leading newline makes it 0 |
| DeviceId.ParseExamples | handlers/link.go:118-123 | `abc`, the empty string and `+-5` give 0, `2` gives 2 and `+5` gives 5 |
| Router.SendLink | handlers/link.go:37-68 | an unbindable body gives 400 `Invalid input` with nothing stored or pushed; otherwise the authenticated user replaces the body's, a failed insert gives 400 `Failed to store link` with no push, and a successful one gives 200 `Link sent`; a push happens exactly when the insert succeeded and the registry holds `(authenticated user, to_device_id)`, and goes to that connection; the insert holds the authenticated user, both device ids and the URL of the body, and the pushed record is the body with only the user replaced, so it agrees with the inserted row on those four columns |
| Router.DeliveredPayloadMatchesRequest | handlers/link.go:44-59 | the pushed record carries the submitted device ids, URL, id and timestamp unchanged and the authenticated user |
| Router.BodyUserIgnored | handlers/link.go:44-45 | a `user_id` in the body has no effect on the outcome |
| Server.Step | handlers/link.go:76-116 | a failed upgrade changes nothing; a successful one registers its connection under (user, parsed `device_id`), leaves every other key as it was and appends the session; a read error deletes that session's key, leaves every other key as it was and removes the session; a read error for no running session changes nothing; a send changes neither the registry nor the sessions, and pushes one record exactly when the link is stored and the sender's target key is registered, carrying the body with the caller's user id to the registered connection |
| Server.ConnectPreservesInv | handlers/link.go:88-93 | registration keeps the invariant; the key (user, parsed `device_id`) now looks up to the new connection, owned by the session appended at the end of the list, and every other key looks up as before |
| Server.ReadErrorPreservesInv | handlers/link.go:102-111 | deregistration after a read error keeps the invariant: every remaining entry's owner is still running |
| Server.StepPreservesInv | handlers/link.go:88-111 | each step keeps the registry free of empty rows and keeps every registered connection owned by a running session under the same key |
| Server.RunPreservesInv | handlers/link.go:22-25 | the invariant holds after any sequence of steps from a state that satisfies it |
| Server.ReachableInv | handlers/link.go:22-25 | every state reachable from the empty registry satisfies the invariant |
| Server.SendReachesLiveSession | handlers/link.go:56-65 | a send pushes only after a successful insert, and only to a running session registered for the sender under the link's target device |
| Server.ConnectThenCloseRestores | handlers/link.go:88-111 | a session that opens on a free key and then fails leaves the registry and the session list as they were, because both steps use the same key |
| Server.StaleCloseOrphansNewerSession | handlers/link.go:88-111 | after a second session takes over a key, the first session's read error deletes the entry, so the second session keeps running yet cannot be reached |
| Server.MalformedDeviceIdRegistersAsZero | handlers/link.go:88-93 | a `device_id` with no leading integer, such as `abc` or the empty string, is not rejected: after a successful upgrade the session registers under device 0 |
| Server.SendWithoutEntryPushesNothing | handlers/link.go:56-67 | a stored link whose target key has no entry is answered with 200 and changes nothing, pushing no record |
| Server.ConnectThenSendScenario | handlers/link.go:37-93 | user 1 opening `device_id=2` and then sending a link from device 1 to device 2 pushes exactly that link, with user 1, to the connection |

## Left out

- WebSocket transport: `Upgrade`, `ReadMessage`, `WriteJSON` and `Close` are I/O. The upgrade outcome is an input, a read error is an event, and a push is a `Delivery` record. A failing `WriteJSON` is only logged, so the model does not distinguish it from a successful one.
- Concurrency: goroutines and the mutex are not modelled; each registry operation and each send is one atomic step, as the lock makes them.
- SQL: the link insert is a boolean input. The `last_seen` update only logs its failure and is not modelled.
- JSON binding: a body that does not bind is `None`; which bodies bind, and the 64-bit range of the link's integer fields, are not modelled.
- Authentication, password hashing, JWT, device CRUD, the crypto helpers and route wiring (`handlers/auth.go`, `handlers/device.go`, `utils/crypto.go`, `db/db.go`, `main.go`) are not part of this model. The user id is taken as an integer. `main.go` mounts `/ws` without the auth middleware, so there the user id is missing and the type assertion at `handlers/link.go:89` panics after the upgrade. It does so after `connMutex.Lock()` at line 88 with no deferred unlock, so the mutex would stay held and every later send would block at line 56; this is not modelled.
- Server.Session: stores the key parsed at registration instead of re-parsing the query string at deregistration; the parse is a pure function of the same captured string, so the key is the same.
- Server.Step: a read error for an index with no running session is ignored; in the program a read error can only happen in a running handler.
- DeviceId.ParseDeviceID: Go's `int` is taken to be 64 bits wide, and input is a sequence of Unicode code points (invalid UTF-8 is not modelled).
