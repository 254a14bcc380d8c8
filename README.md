# Push-notification demo: a verified model of its two cores

The demo pairs a browser client with a small Express server that relays Web
Push notifications. Two pieces of it carry logic, and this project models
and proves properties of both:

* **The client's key decoder** (`urlBase64ToUint8Array`). The server publishes its
  VAPID public key in base64url form (RFC 4648, section 5, usually without
  padding). The decoder turns it into a byte array in four steps: it pads the string with `=` to a
  multiple of four, changes `-` to `+` and `_` to `/`, decodes the result with
  `window.atob`, and copies each character code of the decoded "binary string"
  into a `Uint8Array`. The model keeps the array and the copy loop. `atob` is
  modelled as the browser defines it: the "forgiving-base64 decode" algorithm
  of the WHATWG Infra standard. It strips ASCII whitespace and removes one or two
  trailing `=` when the length is a multiple of four. It then rejects a length of 1
  modulo 4 and any character outside the standard alphabet, and discards
  left-over bits. On canonical input it agrees with RFC 4648, section 4
  (`Base64.CanonicalDecode`). The main theorem is the round trip: decoding the
  unpadded base64url encoding of any byte sequence gives that sequence back.
* **The server's subscription table**. This is a process-wide dictionary from a
  "browser id" to a push subscription. The id is the remote address followed
  directly by the User-Agent header, where a missing one reads `undefined`; with
  both missing, JavaScript's `undefined + undefined` is NaN and the key is `NaN`.
  `POST /register` overwrites the caller's entry.
  `GET /notify` looks the entry up and makes one delivery attempt with it.
  `GET /vapidPublicKey` returns the configured key. The table is a class
  `PushServer<S, E>` with a `map` field. `S` is the stored subscription value,
  kept verbatim. `E` is the delivery library's error. Delivery is a function
  parameter from the subscription found and the payload to `Delivered` or
  `Rejected(error)`.

Files: `wrappers.dfy` (Option, Result), `base64.dfy` (RFC 4648 groups and
alphabets, `atob`), `push_service_worker.dfy` (client), `push_server.dfy`
(server). The allocation and copy loop of `urlBase64ToUint8Array`
(lines 76-80) is its own method, `CopyCharCodes`, called by
`UrlBase64ToUint8Array`.

Two behaviours of the code that a reader might not expect, both followed by the model:

* A notify from a browser that never registered does not fail with a
  "not found" error. The code looks up `undefined` and passes it to the delivery
  library, whose outcome decides the status.
* `/register` answers with `res.sendStatus(200)`. Express sends the reason
  phrase `OK` as the body, not an empty body.

## Model

| member | source | states |
|---|---|---|
| `PushServiceWorker.PaddingLength` | client/src/pushServiceWorker.js:72 | the padding count is at most 3 and brings the length to a multiple of 4 (so it is the unique such count), and it is 0 for a length already a multiple of 4 |
| `PushServiceWorker.Repeat` | client/src/pushServiceWorker.js:72 | `"=".repeat(n)` has length n and holds only that character |
| `PushServiceWorker.Pad` | client/src/pushServiceWorker.js:72-73 | the padded string starts with the input, continues with only `=`, is shorter than input+4 and has a length that is a multiple of 4, equal to input length plus padding count |
| `PushServiceWorker.PadIdempotent` | client/src/pushServiceWorker.js:72 | padding a padded string adds nothing |
| `PushServiceWorker.ReplaceAll` | client/src/pushServiceWorker.js:73 | a global one-character `replace` keeps the length and changes exactly the occurrences of that character, position for position |
| `PushServiceWorker.ToStandardAlphabet` | client/src/pushServiceWorker.js:73 | `-` becomes `+`, `_` becomes `/`, every other character (the `=` padding included) is unchanged in place, and no `-` or `_` remains |
| `PushServiceWorker.UrlBase64ToUint8Array` | client/src/pushServiceWorker.js:71-82 | throws exactly when `atob` throws on the padded, substituted string, with its exception; otherwise returns a fresh array as long as `atob`'s binary string whose elements are the decoded bytes |
| `PushServiceWorker.CopyCharCodes` | client/src/pushServiceWorker.js:76-80 | the copy loop allocates a fresh array as long as the binary string and sets element i to the code of character i, kept modulo 256 as a `Uint8Array` stores it |
| `PushServiceWorker.BinaryStringCodes` | client/src/pushServiceWorker.js:75-80 | the character codes of `atob`'s result, kept modulo 256, are exactly the decoded bytes, one per character |
| `PushServiceWorker.PaddedStandardForm` | client/src/pushServiceWorker.js:72-73 | padding and substitution turn the unpadded base64url encoding of any bytes into their canonical standard-alphabet encoding with `=` padding |
| `PushServiceWorker.RoundTrip` | client/src/pushServiceWorker.js:66-82 | for every byte sequence, decoding its unpadded base64url encoding yields that sequence |
| `PushServiceWorker.UrlBase64ToBytes` | client/src/pushServiceWorker.js:71-75 | a successful decode yields at most 3/4 as many bytes as the padded input has characters |
| `PushServiceWorker.RoundTripPadded` | client/src/pushServiceWorker.js:71-75 | a base64url encoding that already carries `=` padding decodes to the same bytes |
| `PushServiceWorker.ResidueOneRejected` | client/src/pushServiceWorker.js:72-75 | any input whose length is 1 modulo 4 makes the decoder throw |
| `PushServiceWorker.TrailingEqualsRejected` | client/src/pushServiceWorker.js:72-75 | after whitespace removal, text ending in three `=` is rejected by `atob`'s decode whatever precedes them |
| `PushServiceWorker.RegisterPushServer` | client/src/pushServiceWorker.js:56-64 | returns exactly the subscription it was given, and the request it sends is a POST to `/register` as JSON carrying that subscription |
| `Base64.Sextets` | client/src/pushServiceWorker.js:66-71 | splitting bytes into 6-bit groups never leaves a count that is 1 modulo 4 |
| `Base64.SextetsLength` | client/src/pushServiceWorker.js:66-71 | n bytes give ceil(4n/3) 6-bit values |
| `Base64.SextetsToBytes` | client/src/pushServiceWorker.js:75 | joining m 6-bit values (m not 1 modulo 4) gives floor(3m/4) bytes: at most 3m/4, and fewer than one byte short of it |
| `Base64.SextetsRoundTrip` | client/src/pushServiceWorker.js:75 | joining the groups of any byte sequence gives the sequence back |
| `Base64.StdValue` | client/src/pushServiceWorker.js:73-75 | the value of a standard-alphabet character; `+` and exactly `+` is 62, `/` and exactly `/` is 63 |
| `Base64.StdChar` | client/src/pushServiceWorker.js:73-75 | the standard character for each 6-bit value is in the alphabet and decodes back to that value |
| `Base64.StdCharOfValue` | client/src/pushServiceWorker.js:73-75 | every standard-alphabet character is the encoding of its own value |
| `Base64.UrlChar` | client/src/pushServiceWorker.js:73 | the base64url alphabet uses `-` for 62, `_` for 63, agrees with the standard one below 62, and never yields `+`, `/` or `=` |
| `Base64.StdChars` | client/src/pushServiceWorker.js:73-75 | the standard-alphabet text of a group sequence is as long as it and decodes back to it character by character |
| `Base64.UrlSafeEncode` | client/src/pushServiceWorker.js:66-71 | the unpadded base64url encoding of n bytes has ceil(4n/3) characters, each the base64url character of the matching 6-bit group |
| `Base64.StripAsciiWhitespace` | client/src/pushServiceWorker.js:75 | `atob`'s whitespace removal leaves no whitespace and never lengthens |
| `Base64.StripWithoutWhitespace` | client/src/pushServiceWorker.js:75 | whitespace removal changes nothing in a string without whitespace |
| `Base64.StripConcat` | client/src/pushServiceWorker.js:75 | whitespace removal of a concatenation is the concatenation of the two removals |
| `Base64.DropPadding` | client/src/pushServiceWorker.js:75 | `atob` removes only trailing `=`, at most two, only at a length that is a multiple of 4, and stops at a non-`=` character |
| `Base64.DecodeStripped` | client/src/pushServiceWorker.js:75 | after whitespace and padding removal, a successful decode yields at most 3/4 as many bytes as characters |
| `Base64.ForgivingDecode` | client/src/pushServiceWorker.js:75 | `atob`'s decode yields at most 3/4 as many bytes as it was given characters |
| `Base64.Atob` | client/src/pushServiceWorker.js:75 | `atob` throws exactly when the decode fails; otherwise its binary string has one character per decoded byte, each with that byte's code and so below 256 |
| `Base64.CanonicalHasNoWhitespace` | client/src/pushServiceWorker.js:75 | a canonical encoding passes whitespace removal unchanged |
| `Base64.CanonicalPadding` | client/src/pushServiceWorker.js:75 | padding removal takes off exactly the `=` characters of a canonical encoding |
| `Base64.StandardCharsDecode` | client/src/pushServiceWorker.js:75 | the standard-alphabet text of any group sequence (length not 1 modulo 4) passes the length and alphabet checks and decodes to the bytes those groups carry |
| `Base64.CanonicalDecode` | client/src/pushServiceWorker.js:75 | on canonical standard base64 `atob` yields exactly the bytes the 6-bit groups carry |
| `PushServer.JsString` | server/server.js:32 | a present value becomes itself in string concatenation and a missing one becomes `undefined` |
| `PushServer.BrowserId` | server/server.js:31-33 | when at least one of the two is present, the id is the remote address followed directly by the User-Agent (each as concatenation renders it): its prefix is the one and its rest the other; when both are missing, `undefined + undefined` is NaN and the id is the key `NaN` |
| `PushServer.BothMissingIsNaN` | server/server.js:31-33 | a request with neither address nor agent gets the id `NaN`, not the id of a request whose agent is literally `undefined` |
| `PushServer.BrowserIdIsAmbiguous` | server/server.js:26-33 | two different requests can get the same id |
| `PushServer.MissingAgentIsUndefined` | server/server.js:31-33 | with a remote address present, a request without a User-Agent header gets an id ending in `undefined`, the same as for a browser whose agent is literally `undefined` |
| `PushServer.PushServer.constructor` | server/server.js:40 | the table is empty at start-up and the key is the configured one |
| `PushServer.PushServer.Lookup` | server/server.js:50 | an entry is found exactly when its id is in the table, and then it is the stored one; otherwise `undefined` |
| `PushServer.PushServer.Register` | server/server.js:43-46 | the caller's entry becomes the new subscription; every other id keeps its entry; the answer is 200 `OK` |
| `PushServer.PushServer.Notify` | server/server.js:49-55 | the table is not modified; one delivery attempt is made with the caller's entry (or `undefined`) and the payload `hello`; 200 on delivery, 500 with the library's error on rejection |
| `PushServer.PushServer.VapidPublicKey` | server/server.js:58-60 | status 200 with the configured key as the body, table not modified |
| `PushServer.NotifyUnregistered` | server/server.js:49-52 | on a fresh server a notify attempts delivery with `undefined` |
| `PushServer.RegisterThenNotify` | server/server.js:43-55 | after a register, a notify from the same browser delivers that subscription and answers 200 or 500 as delivery goes |
| `PushServer.LastWriteWins` | server/server.js:43-46 | after two registrations from one browser, notify uses the second |
| `PushServer.OtherIdsUntouched` | server/server.js:43-46 | a registration under a different id leaves this browser's subscription in place |
| `PushServer.PublicKeyIsStable` | server/server.js:43-60 | the key endpoint returns the configured key on repeated calls and leaves the registered subscription in place |

## Left out

- Service-worker registration, the `window` load listener, the capability check, the key `fetch` and `pushManager.subscribe` (`register`, `subscribeServiceWorker`) are left out. They are browser I/O and promise chaining.
- `PushServiceWorker.RegisterPushServer`: the request is returned as a value. The HTTP transport, `JSON.stringify` and the ignored promise are not modelled.
- Express, cors and body-parser setup and `app.listen` are left out. They are HTTP plumbing. Each handler is modelled as one method on the table.
- The message `req.body.subscription` is taken as the opaque value `S`. When the body has no such member, JavaScript stores `undefined`; `S` can include such a value, but the model does not separate it out.
- `webPush.setVapidDetails` and `webPush.sendNotification` are foreign library calls doing VAPID signing, payload encryption and network transport. Delivery is only the `deliver` function's outcome.
- The VAPID keys come from the environment through dotenv. The public key is a constructor parameter instead. The case of an unset key (`res.send(undefined)`) is not modelled.
- Console logging is left out.
- Interleaving of requests on the event loop and the asynchronous settling of delivery are left out. Each handler runs to completion as one step.
- The subscription table is a JavaScript plain object, so a key matching an inherited property name (`constructor`, `__proto__`) would behave differently from a map. An id that starts with a remote address (an IP address) cannot be such a name. Without an address the id is `undefined` followed by the agent, or `NaN`, and no inherited property name has either form. So this is not modelled.
- JavaScript strings are UTF-16 code-unit sequences. Here they are Dafny strings of Unicode scalar values. That makes no difference for the base64 alphabet and for binary strings, whose codes are all below 256.
