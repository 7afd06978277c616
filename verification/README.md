# Capability protocol v1: a verified model

This project models the hand-written helpers of the capability protocol in
`gen/go/dirextalk/capability/v1` and proves what they promise one another:

* **Canonical JSON** (RFC 8785): the printer, the strict string scanner, the
  token decoder, the UTF-16 key order, the binary64 exactness gate and the
  traversal of Go's pointer graphs with its set of addresses under visit. Every
  request digest and every signed payload rests on this printer being
  deterministic, injective and readable.
* **Grants and delegation**: default filling, signing, verifying, binding to a
  call, deriving a Product child from a parent, control grants and their sets,
  renewal, and the route machine `ms → agent → product`.
* **Operation lifecycle**: the state machine, restart, reconciliation, replay and
  tombstone compaction, as whole runs of a ledger guarded by the validators.

Byte strings are sequences of bytes, JSON values a datatype whose numbers keep
their text, binary64 values the real numbers they denote. Code that works by
changing state is imperative here too: the canonicaliser with its `visiting`
set, the token decoder, the index-driven scanner, the sort, default filling, the
`seen` sets and the map of verified control claims. Each such method is proved
equal to a function, and the properties are lemmas about the functions. The
functions are tied in turn to descriptions that do not mention them: the grammar of
RFC 8259 and the layout of RFC 8785 for the reader and the printer, Number::toString
of ECMA-262 for numbers, positional numbers for base64, RFC 9562 for identifiers,
and for each signer and verifier the exact list of what it requires.

## Where the code and its documentation differ

* Canonicalising twice is not always the identity. The fuzz test at
  `gen/go/dirextalk/capability/v1/conformance_test.go:265` asserts that it is;
  `9223372036854775808` is accepted, prints as `9223372036854776000`, and that
  text is refused (`InexactWitness.DocumentNotIdempotent`). The exact condition
  is `JsonRoundTrip.AllStable`: every number that prints as a bare integer
  equals the binary64 value it stands for. It always holds up to 2^53.
* For the same reason a signer can emit a grant that no verifier accepts, when a
  timestamp is not such an integer: `DelegationWitness.SignedAndUnreadable` shows
  valid claims that every key signs with the default settings and every verifier
  refuses; `GrantWire.PayloadRoundTrip` gives the exact condition.
* `docs/protocol.md:70-71` says that a child grant copies its parent's scopes. The
  code carries exactly the required scopes, a subset of the parent's
  (`gen/go/dirextalk/capability/v1/product_delegation.go:148-151`), and the
  model follows the code.
* `docs/protocol.md:125-126` lets `UNCERTAIN` be left only by reconciliation.
  The transition validator also allows the same three terminal states
  (`OperationState.TransitionsDocumented`).
* The guards of the delegation signer accept descriptors that the grant rules then
  refuse, such as names with C1 control characters
  (`DelegationWitness.GuardsAdmitControlName`); `Delegation.ChildValid` gives the
  exact condition.
* A child grant may outlive its parent: the code never compares the two expiries.
  `DelegationWitness.ChildOutlivesParent` shows a child that the Product boundary
  accepts 40 seconds after the parent, accepted for the same call, has expired.
  A child expires within its parent exactly when the signer's clock plus the capped
  lifetime does (`Delegation.ChildExpiry`), and `Delegation.AcceptedAfterParent`
  says exactly when some verifier still accepts it later.

## Files

| file | content |
|---|---|
| Basics, Utf8, Base64, Tokens, Identifiers | bytes, results, splitting and joining, UTF-8 and UTF-16, base64, identifiers |
| Scaling, Binary64, ShortestDecimal, Numerals, JsonNumber, InexactWitness | powers of two and ten, rounding, shortest decimals, number text, `canonicalNumber` |
| KeyOrder, JsonString, Json, JsonDecoder, JsonRoundTrip, JsonStrictness | key order, strings, values, the decoder, printer and reader |
| JsonGrammar, Rfc8785Layout | the grammar of RFC 8259 and the layout of RFC 8785, against which reader and printer are proved |
| GoHeap, RequestDigest | pointer graphs; digest preimages |
| CallRoute, RouteMoves, BoundaryRoutes | call contexts and routes |
| Payload, GrantWire, GrantSize, Envelope, Grants, RootBoundary, Delegation, DelegationWitness, ControlGrants, ControlSet | signed payloads, their size, grants, child grants, concrete examples, control grants |
| Issuance, Acceptance, WireMeaning, ControlCover | exactly what is signed, read and accepted |
| Replay, OperationState, OperationLedger | replay keys, renewal, the lifecycle |
| Metadata | peer-authentication metadata |

## Model

| member | source | states |
|---|---|---|
| KeyOrder.CompareUTF16 | gen/go/dirextalk/capability/v1/idempotency.go:519-537 | the index loop compares the UTF-16 code units of two strings: first difference, then length |
| KeyOrder.CompareMeaning | gen/go/dirextalk/capability/v1/idempotency.go:519-537 | a comparison is negative iff there is a first unit at which the left side ends or is smaller, zero iff the arrays are equal, and antisymmetric |
| KeyOrder.KeyOrderTotal | gen/go/dirextalk/capability/v1/idempotency.go:519-537 | on valid UTF-8 the key order is a strict total order, zero only on equal strings |
| KeyOrder.NotCodePointOrder | gen/go/dirextalk/capability/v1/idempotency.go:519-537 | the key order differs from code-point order, with a concrete pair of keys |
| KeyOrder.SortKeys | gen/go/dirextalk/capability/v1/idempotency.go:356 | sorting any enumeration of the same distinct keys gives one and the same ascending sequence |
| KeyOrder.AscendingUnique | gen/go/dirextalk/capability/v1/idempotency.go:347-356 | two ascending enumerations of the same keys are equal |
| KeyOrder.OneAscending | gen/go/dirextalk/capability/v1/idempotency.go:347-356 | a set of valid keys has exactly one ascending enumeration |
| Rfc8785Layout.UnitsMeaning | gen/go/dirextalk/capability/v1/idempotency.go:519-537 | keys are compared by UTF-16 units: each character is one unit, or the surrogate pair that combines into it |
| JsonString.CanonicalString | gen/go/dirextalk/capability/v1/idempotency.go:379-414 | the buffer loop writes the shortest escape of every character between quotes, and refuses invalid UTF-8 |
| JsonString.ReadUnicodeEscape | gen/go/dirextalk/capability/v1/idempotency.go:681-706 | four hexadecimal digits are read exactly when they are there, with their value and the index behind them |
| JsonString.ValidateJSONString | gen/go/dirextalk/capability/v1/idempotency.go:627-679 | the index-driven scanner stays in bounds, advances, and finds the closing quote exactly when the reference scanner does |
| JsonString.ValidateJSONStrings | gen/go/dirextalk/capability/v1/idempotency.go:612-625 | the whole input is accepted iff every quote outside a string opens an acceptable string |
| JsonString.ScannerGrammar | gen/go/dirextalk/capability/v1/idempotency.go:627-706 | the scanner accepts exactly the bodies made of plain characters, short escapes, `\u` escapes outside the surrogate range and proper surrogate pairs, and the decoder then reads the characters the grammar assigns |
| JsonString.NoSubstitution | gen/go/dirextalk/capability/v1/idempotency.go:149-152 | where the scanner accepts, the lenient decoder puts in no replacement character |
| JsonString.QuoteInverse | gen/go/dirextalk/capability/v1/idempotency.go:379-414 | scanning a printed string stops just past its closing quote and reading restores the string, whatever follows |
| JsonString.ShortestEscape | gen/go/dirextalk/capability/v1/idempotency.go:388-411 | no spelling of a character in the string grammar is shorter than the printed escape, and only upper-case hex digits make another as short |
| JsonString.ShortestSpelling | gen/go/dirextalk/capability/v1/idempotency.go:379-414 | of all spellings of a string the printed one is the shortest, and the only shortest one in lower-case digits |
| JsonString.PrintedSpelling | gen/go/dirextalk/capability/v1/idempotency.go:379-414 | the printed text is one of the spellings of the string, in lower-case digits |
| Numerals.LayoutScans | gen/go/dirextalk/capability/v1/idempotency.go:460-498 | each of the four layouts of a sign, digit string and exponent denotes exactly that decimal |
| Numerals.LayoutForm | gen/go/dirextalk/capability/v1/idempotency.go:476-498 | scientific text appears exactly outside −6 ≤ e < 21, and a bare integer, the digits padded with zeros, exactly when no fraction digit remains below 21 |
| Numerals.LayoutIsEcma | gen/go/dirextalk/capability/v1/idempotency.go:460-498 | the layout is Number::toString of ECMA-262, case by case of its digits and exponent |
| JsonNumber.LayoutInjective | gen/go/dirextalk/capability/v1/idempotency.go:460-498 | equal number texts come from equal normalised sign, digits and exponent |
| Binary64.RoundNearest | gen/go/dirextalk/capability/v1/idempotency.go:440-449 | conversion to binary64 is correctly rounded: no binary64 value is nearer |
| Binary64.RoundTiesEven | gen/go/dirextalk/capability/v1/idempotency.go:440-449 | where two binary64 values are equally near, the one with the even significand is taken |
| Binary64.RoundOverflows | gen/go/dirextalk/capability/v1/idempotency.go:440-453 | conversion gives an infinity exactly from half a unit above the greatest finite value on |
| Binary64.ExactIntegers | gen/go/dirextalk/capability/v1/idempotency.go:436-447 | a whole number survives the conversion iff it is m·2^k with m < 2^53 and k ≥ 0, below 2^1024 |
| JsonNumber.IntTextAccepted | gen/go/dirextalk/capability/v1/idempotency.go:431-448 | an integer lexeme passes the gate exactly then, and is read as that integer |
| JsonNumber.IntTextInjective | gen/go/dirextalk/capability/v1/idempotency.go:283-284 | accepted integers with the same canonical text are equal |
| JsonNumber.SmallIntText | gen/go/dirextalk/capability/v1/metadata.go:68-76 | every integer up to 2^53 in magnitude, so every account generation, is accepted and is its own canonical text |
| ShortestDecimal.ShortestReadsBack | gen/go/dirextalk/capability/v1/idempotency.go:460 | the digits that are printed read back as the same binary64 value |
| ShortestDecimal.ShortestMinimal | gen/go/dirextalk/capability/v1/idempotency.go:460 | no shorter digit string reads back |
| ShortestDecimal.ShortestNearest | gen/go/dirextalk/capability/v1/idempotency.go:460 | of the digit strings of that length that read back none is nearer to the value, and in a tie the printed one ends in an even digit |
| JsonNumber.CanonicalReads | gen/go/dirextalk/capability/v1/idempotency.go:426-499 | canonical number text denotes the same binary64 value with the same sign |
| JsonNumber.CanonicalInjective | gen/go/dirextalk/capability/v1/idempotency.go:426-499 | numbers with the same canonical text have the same sign and value |
| JsonGrammar.NumeralPrints | gen/go/dirextalk/capability/v1/idempotency.go:426-499 | for every number of the grammar: refused as out of range, refused as inexact when written as an integer that is not its own binary64 value, or printed as `0` or the shortest digits of the nearest value |
| JsonNumber.NumberIdempotent | gen/go/dirextalk/capability/v1/idempotency.go:426-499 | canonical number text canonicalises to itself iff it is stable; otherwise the gate refuses it as inexact |
| JsonNumber.CanonicalInt | gen/go/dirextalk/capability/v1/idempotency.go:426-499 | the canonical text of an accepted 64-bit integer is a bare integer, and spells that integer iff the integer is stable |
| JsonNumber.SmallStable | gen/go/dirextalk/capability/v1/idempotency.go:436-448 | every value up to 2^53 is stable |
| InexactWitness.NotIdempotentAtTwoTo63 | gen/go/dirextalk/capability/v1/idempotency.go:431-448 | 2^63 is accepted and prints as an integer that is refused |
| InexactWitness.DocumentNotIdempotent | gen/go/dirextalk/capability/v1/idempotency.go:145-157 | the document 9223372036854775808 canonicalises to 9223372036854776000, which is refused |
| InexactWitness.TwoTo62Unstable | gen/go/dirextalk/capability/v1/idempotency.go:431-448 | 2^62, which fits an int64 field, has the same fate |
| JsonDecoder.Decode | gen/go/dirextalk/capability/v1/idempotency.go:539-557 | the token decoder accepts one value followed by nothing but space, and returns what the reference reader reads |
| JsonDecoder.Decoder.DecodeObject | gen/go/dirextalk/capability/v1/idempotency.go:567-590 | the object loop fills its map as the reference reader does, refuses duplicate keys, and leaves the same input |
| JsonDecoder.Decoder.DecodeArray | gen/go/dirextalk/capability/v1/idempotency.go:591-603 | the array loop appends its elements as the reference reader does and leaves the same input |
| JsonDecoder.CanonicalizeBytes | gen/go/dirextalk/capability/v1/idempotency.go:145-157 | blanks refused, then scan, decode and print, in that order |
| JsonRoundTrip.ReadCanon | gen/go/dirextalk/capability/v1/idempotency.go:225-414 | every printable value is read back from its text, numbers in canonical spelling, with the rest of the input untouched |
| JsonRoundTrip.DecodeCanon | gen/go/dirextalk/capability/v1/idempotency.go:539-610 | decoding canonical bytes gives the value back with no trailing data |
| JsonRoundTrip.CanonInjective | gen/go/dirextalk/capability/v1/idempotency.go:125-130 | printable values share their canonical text iff they are equal up to the spelling of numbers |
| JsonRoundTrip.ObjectPrints | gen/go/dirextalk/capability/v1/idempotency.go:339-377 | an object prints iff its keys are valid UTF-8 and all of its members print |
| JsonRoundTrip.IntTextCanonicalizes | gen/go/dirextalk/capability/v1/idempotency.go:145-157 | a document that is one integer is canonicalised by the number printer alone |
| JsonRoundTrip.ScanCanon | gen/go/dirextalk/capability/v1/idempotency.go:612-679 | the string scanner accepts all canonical text |
| JsonRoundTrip.CanonicalizeTwice | gen/go/dirextalk/capability/v1/idempotency.go:145-157 | canonicalising twice gives the same bytes iff every number of the input is stable; otherwise the second pass refuses an inexact integer |
| Rfc8785Layout.ArrayLayout | gen/go/dirextalk/capability/v1/idempotency.go:322-337 | an array prints as the texts of its elements in order, joined with commas, in brackets |
| Rfc8785Layout.ObjectLayout | gen/go/dirextalk/capability/v1/idempotency.go:339-377 | an object prints as its members in ascending key order, each a quoted key, a colon and the member's text, joined with commas, in braces |
| JsonStrictness.AcceptedReadsStrictly | gen/go/dirextalk/capability/v1/idempotency.go:145-157 | an accepted input is read exactly as a decoder without any substitution would read it |
| JsonGrammar.TextReads | gen/go/dirextalk/capability/v1/idempotency.go:559-610 | every text of the RFC 8259 grammar with distinct keys is read up to its end, as the value the grammar gives it, whatever follows |
| JsonGrammar.StrictGrammar | gen/go/dirextalk/capability/v1/idempotency.go:539-610 | a decoder without substitution accepts exactly the texts of the grammar with distinct keys, with their values |
| JsonGrammar.CanonicalizeGrammar | gen/go/dirextalk/capability/v1/idempotency.go:145-157 | `CanonicalizeJSON` succeeds exactly on texts of the grammar with distinct keys whose value prints, and returns that print |
| GoHeap.Canonicalizer.CanonicalizeValue | gen/go/dirextalk/capability/v1/idempotency.go:225-320 | on any finite graph the traversal terminates, leaves the visiting set as it found it, and returns the bytes or error of the specification |
| GoHeap.Canonicalizer.CanonicalArray | gen/go/dirextalk/capability/v1/idempotency.go:322-337 | the buffer holds the elements printed so far, and the visiting set is restored |
| GoHeap.Canonicalizer.CanonicalMap | gen/go/dirextalk/capability/v1/idempotency.go:339-377 | whatever the iteration order, the members come out in ascending key order |
| Rfc8785Layout.MapLayout | gen/go/dirextalk/capability/v1/idempotency.go:339-377 | a map in the heap prints its entries in ascending key order, each with the text of its value, in braces |
| Rfc8785Layout.SliceLayout | gen/go/dirextalk/capability/v1/idempotency.go:322-337 | a slice in the heap prints its elements in order, in brackets |
| Rfc8785Layout.PointerLayout | gen/go/dirextalk/capability/v1/idempotency.go:229-244 | a pointer prints as what it points to |
| Rfc8785Layout.LeafLayout | gen/go/dirextalk/capability/v1/idempotency.go:258-296 | nil, booleans, integers, strings, number texts and byte slices print as their JSON values |
| GoHeap.GraphPrintsTree | gen/go/dirextalk/capability/v1/idempotency.go:225-256 | a graph without cycles, shared nodes and all, prints the bytes of its tree unfolding |
| GoHeap.PrintedUnfolds | gen/go/dirextalk/capability/v1/idempotency.go:225-256 | a graph that prints unfolds within as many steps as there are nodes not under visit |
| GoHeap.CanonicalizeMeaning | gen/go/dirextalk/capability/v1/idempotency.go:128-130 | `Canonicalize` succeeds iff the graph unfolds into a printable tree |
| GoHeap.CycleRejected | gen/go/dirextalk/capability/v1/idempotency.go:233-256 | whatever reaches a cycle is refused |
| RequestDigest.PreimageExists | gen/go/dirextalk/capability/v1/idempotency.go:61-91 | a request has a preimage iff its digests have 32 bytes, its texts are valid UTF-8, its integers pass the gate and its input prints |
| RequestDigest.PreimageBinds | gen/go/dirextalk/capability/v1/idempotency.go:49-94 | preimages are equal iff protocol, descriptor, schema, operation, revision, input, attachments and grant are |
| RequestDigest.NilInputs | gen/go/dirextalk/capability/v1/idempotency.go:74-83 | nil and empty business input share a preimage, nil and empty attachment lists do not |
| RequestDigest.RootIsNotFinal | gen/go/dirextalk/capability/v1/idempotency.go:84-86 | no root preimage is a final one, of whatever two requests |
| CallRoute.ParseInverse | gen/go/dirextalk/capability/v1/callcontext.go:306-323 | parsing and joining routes are inverse, both ways |
| CallRoute.DetectCycle | gen/go/dirextalk/capability/v1/callcontext.go:175-198 | the loop over the seen set reports a cycle iff a node repeats |
| CallRoute.ContextMeaning | gen/go/dirextalk/capability/v1/callcontext.go:36-77 | structural validation accepts exactly proper tokens with a route of distinct known nodes, one per hop |
| CallRoute.RunStands | gen/go/dirextalk/capability/v1/callcontext.go:103-268 | over any sequence of append and advance calls the context stays valid and on one of six routes, hop equals the node count, identifiers and deadline stay, and at most 3 − hop changes happen |
| CallRoute.NewContextIsOrigin | gen/go/dirextalk/capability/v1/callcontext.go:275-287 | a new context is valid, and a proper start of a run, iff its identifiers are tokens and its deadline positive |
| CallRoute.NewContextRuns | gen/go/dirextalk/capability/v1/callcontext.go:103-287 | so every run from a new context stays on a legal route with at most three changes |
| CallRoute.EveryLegalRouteReached | gen/go/dirextalk/capability/v1/callcontext.go:103-138 | each of the six routes is reached by some run |
| CallRoute.ValidationIsWeaker | gen/go/dirextalk/capability/v1/callcontext.go:36-77 | `agent→ms` passes validation and no run reaches it |
| RouteMoves.SendLeads | gen/go/dirextalk/capability/v1/callcontext.go:103-138 | a sender is appended exactly when the path stays legal, and appending the last node again changes nothing |
| RouteMoves.ReceiveLeads | gen/go/dirextalk/capability/v1/callcontext.go:162-169 | a receiver advances a call that is under way, exactly when the path stays legal, and the call then stands at the receiver |
| RouteMoves.EnterAgentLeads | gen/go/dirextalk/capability/v1/callcontext.go:253-259 | the Agent accepts exactly calls under UUIDs that stand at ms, and they then stand at agent |
| RouteMoves.EnterProductLeads | gen/go/dirextalk/capability/v1/callcontext.go:262-268 | the Product accepts exactly calls under UUIDs that stand at agent, and they then stand at product |
| RouteMoves.ProtocolReachesProduct | gen/go/dirextalk/capability/v1/callcontext.go:103-268 | the moves of the protocol lead every such call over its whole route |
| BoundaryRoutes.FitsMeansJoins | gen/go/dirextalk/capability/v1/grant.go:506-543 | for a call on a legal route the boundary check accepts exactly the route from the grant's entry to this boundary, within its budget |
| BoundaryRoutes.BoundaryMeetsRun | gen/go/dirextalk/capability/v1/grant.go:529-543 | the same over whole runs of the route machine |
| BoundaryRoutes.BoundaryReached | gen/go/dirextalk/capability/v1/grant.go:529-543 | every predicted boundary route is built by some run, with the predicted hop |
| Payload.PrintedMembers | gen/go/dirextalk/capability/v1/grant.go:603-613 | a printed payload reaches the struct decoder iff all its integers are stable, and then every field holds what was put there |
| Payload.PrintSucceeds | gen/go/dirextalk/capability/v1/grant.go:577-601 | a payload prints iff its names and texts are valid UTF-8 and its integers pass the gate |
| GrantWire.PayloadRoundTrip | gen/go/dirextalk/capability/v1/grant.go:577-658 | claims are read back exactly iff their generation and timestamps are stable; otherwise the payload is refused |
| WireMeaning.UnmarshalMeaning | gen/go/dirextalk/capability/v1/grant.go:603-658 | a payload is read as claims exactly when it is canonical, an object without unknown members, of version 1, and each field stands under its name; missing and null members read as zero |
| WireMeaning.UnmarshalControlMeaning | gen/go/dirextalk/capability/v1/grant.go:841-864 | the same for control payloads |
| GrantWire.UnstableExpiryRefused | gen/go/dirextalk/capability/v1/grant.go:603-607 | claims that expire at 2^62, if they print at all, are never read back |
| GrantWire.MarshalSucceeds | gen/go/dirextalk/capability/v1/grant.go:577-601 | claims are printed iff their texts are valid UTF-8 and their integers are binary64 values |
| GrantSize.PlainClaimsSign | gen/go/dirextalk/capability/v1/grant.go:175-187 | valid claims in plain ASCII with a short scope list are signed by every key, within the default size |
| DelegationWitness.SignedAndUnreadable | gen/go/dirextalk/capability/v1/grant.go:153-253 | concrete valid claims that every key signs with the default settings and every verifier that admits their size refuses, whatever its clock |
| Base64.UrlInverse | gen/go/dirextalk/capability/v1/grant.go:183 | the lenient URL-safe decoder inverts the encoder |
| Base64.UrlMeaning | gen/go/dirextalk/capability/v1/grant.go:183 | encoded text spells the same number in base 64 as the bytes do in base 256, padded with zero bits |
| Base64.DecodeMeaning | gen/go/dirextalk/capability/v1/grant.go:227-234 | the decoder accepts exactly alphabet text whose length, line breaks aside, is not one more than a multiple of four, and reads its number without the bits that fill no byte |
| Base64.StdMeaning | gen/go/dirextalk/capability/v1/idempotency.go:293-296 | byte slices print in the standard alphabet, filled up with `=` |
| Envelope.SealSplits | gen/go/dirextalk/capability/v1/grant.go:223-226 | a sealed envelope splits into the three parts that were joined |
| Envelope.OpenSealed | gen/go/dirextalk/capability/v1/grant.go:223-234 | opening an envelope gives back payload and signature |
| Envelope.OpenMeaning | gen/go/dirextalk/capability/v1/grant.go:223-234 | a text opens iff it is the prefix and two parts without a dot, both of which decode, the second to 64 bytes |
| Grants.DefaultsFilled | gen/go/dirextalk/capability/v1/grant.go:159-174 | filling touches only zero fields, leaves no kind or route length empty and, under a positive clock, no time zero; filling again changes nothing |
| Grants.DefaultTimesValid | gen/go/dirextalk/capability/v1/grant.go:159-171 | claims without times get the whole lifetime from now on, valid unless it leaves 64 bits |
| Grants.DefaultsChosen | gen/go/dirextalk/capability/v1/grant.go:159-174 | whatever the issue time, claims without an expiry live for the whole lifetime of the codec, unless the sum leaves 64 bits; the other defaults are the expiry, `root` and 256 |
| Grants.DefaultExpiryValid | gen/go/dirextalk/capability/v1/grant.go:159-171 | claims without an expiry have valid times iff they start after zero, that lifetime is positive and within 64 bits, and their deadline lies in it |
| Grants.Sign | gen/go/dirextalk/capability/v1/grant.go:153-188 | key check, defaults, validation, canonical payload, signature, size, with each error in its place |
| Grants.SignedIsJudged | gen/go/dirextalk/capability/v1/grant.go:153-253 | a verifier's exact decision on any signed grant, as a function of claims, size and settings |
| Grants.SkewMeaning | gen/go/dirextalk/capability/v1/grant.go:245-252 | a clock skew lets claims in early by its milliseconds and never late; one that carries the clock out of 64 bits refuses all claims |
| Grants.AcceptedIsAuthentic | gen/go/dirextalk/capability/v1/grant.go:211-253 | whatever bytes are accepted hold a canonical payload and a signature of it under the key, and carry bounded claims with distinct scopes whose lifetime includes the present |
| Issuance.SignMeaning | gen/go/dirextalk/capability/v1/grant.go:153-188 | signing succeeds iff the key is raw and 64 bytes long and the filled claims are well formed, print and fit the size; what it writes is the prefix, the payload and its signature |
| Issuance.KeyMeaning | gen/go/dirextalk/capability/v1/grant.go:384-474 | raw keys are those of the right size that hold no PEM header anywhere |
| Acceptance.ProperMeaning | gen/go/dirextalk/capability/v1/grant.go:308-378 | validation accepts exactly three shapes of grant (root, query child, start child) with UUIDs, ascending scopes, ordered times and a single entry node within the budget |
| Acceptance.SignedMeaning | gen/go/dirextalk/capability/v1/grant.go:211-253 | a verifier returns exactly the well-formed claims, alive by its clock, that the grant authentically spells, under a raw 32-byte key and within its size |
| Acceptance.RootMeaning | gen/go/dirextalk/capability/v1/grant.go:294-306 | the Product boundary accepts a root grant iff chain, root operation, owner, generation and digest are those of request and call, the scopes asked for are granted, the deadline is covered, and the call came from the entry within the budget |
| Acceptance.AgentRootMeaning | gen/go/dirextalk/capability/v1/grant.go:267-282 | the Agent boundary likewise, and iff the descriptor is the granted one |
| Acceptance.OneRootRequest | gen/go/dirextalk/capability/v1/grant.go:476-514 | whatever keys and clocks, one root grant is accepted for one request only, up to the scopes asked for, the deadline and the parent call |
| Acceptance.OneAgentRequest | gen/go/dirextalk/capability/v1/grant.go:516-527 | at the Agent boundary the descriptor is fixed too |
| RootBoundary.RootComplete | gen/go/dirextalk/capability/v1/grant.go:294-306 | the exact verdict on a signed root grant presented with its own call at the Product boundary: accepted iff small enough, stable, alive, and the call came there from the grant's entry within its budget and deadline |
| RootBoundary.AgentRootComplete | gen/go/dirextalk/capability/v1/grant.go:267-282 | the same at the Agent boundary with the matching descriptor |
| Delegation.ChildIsSigned | gen/go/dirextalk/capability/v1/product_delegation.go:84-161 | a derived child is the child's claims signed with a codec of at most two minutes |
| Issuance.IssueMeaning | gen/go/dirextalk/capability/v1/product_delegation.go:84-136 | the guards of the delegation signer: a valid root parent entered from ms, of the call's chain and operation, a call that stands at product, a fitting target, and scopes that the parent holds |
| Issuance.ChildGuardsRedundant | gen/go/dirextalk/capability/v1/product_delegation.go:43-60 | the child signer's own guards refuse nothing that signing would accept |
| Issuance.ChildIsNoParent | gen/go/dirextalk/capability/v1/product_delegation.go:90-102 | a child grant cannot be delegated again |
| Delegation.ChildValid | gen/go/dirextalk/capability/v1/grant.go:308-378 | an accepted issue yields valid child claims iff the call's deadline falls into the child's lifetime, the parent's route budget covers the entry, and the descriptor meets the stricter token rule of grants |
| Delegation.DelegationSigns | gen/go/dirextalk/capability/v1/product_delegation.go:84-161 | exactly when deriving and signing a child succeeds |
| Delegation.DelegationAttenuates | gen/go/dirextalk/capability/v1/product_delegation.go:123-160 | what any verifier reads from a child keeps the parent's chain, operation, owner, generation and limits, has exactly the required scopes, within the parent's, and lives two minutes at most |
| Delegation.ParentTimesIgnored | gen/go/dirextalk/capability/v1/product_delegation.go:138-160 | the child does not depend on the parent's timestamps |
| Delegation.DelegationComplete | gen/go/dirextalk/capability/v1/product_delegation.go:166-197 | the exact verdict on a child at the matching boundary: accepted iff small enough, stable, alive, and within the parent's hop and route budget |
| Acceptance.DelegationMeaning | gen/go/dirextalk/capability/v1/product_delegation.go:166-197 | the delegation verifier accepts iff request, call, descriptor, target and nested operation are those of the authenticated child, which lives two minutes at most |
| Acceptance.OneChildRequest | gen/go/dirextalk/capability/v1/product_delegation.go:166-197 | one child grant is accepted for one request, target, nested operation and descriptor only |
| Delegation.DelegationInPractice | gen/go/dirextalk/capability/v1/product_delegation.go:84-197 | with sizes up to 8192 and a clock below 2^53, accepted iff alive and within budget |
| Delegation.ChildExpiry | gen/go/dirextalk/capability/v1/product_delegation.go:134-160 | a signed child lives from the signer's clock for the capped lifetime, and expires within its parent iff that sum does |
| Delegation.AcceptedAfterParent | gen/go/dirextalk/capability/v1/product_delegation.go:166-197 | some verifier accepts the child after its parent has expired iff it would be accepted at all and was signed less than its lifetime before that expiry |
| Delegation.AcceptedParentDelegates | gen/go/dirextalk/capability/v1/product_delegation.go:206-214 | a parent accepted for a call covers that call's budget, and may delegate for it iff it entered from ms |
| Delegation.ExchangeComplete | gen/go/dirextalk/capability/v1/product_delegation.go:84-214 | a child issued for the call its parent was accepted with is accepted there exactly while it lives |
| DelegationWitness.ChildOutlivesParent | gen/go/dirextalk/capability/v1/product_delegation.go:134-160 | a concrete child, signed by every key, that is accepted after its parent has expired |
| DelegationWitness.ParentVerdict | gen/go/dirextalk/capability/v1/grant.go:294-306 | its concrete parent is signed, and accepted for the same call until its own expiry and no longer |
| DelegationWitness.GuardsAdmitControlName | gen/go/dirextalk/capability/v1/product_delegation.go:117-122 | a concrete issue that passes every guard and that every signer refuses |
| ControlGrants.SignControl | gen/go/dirextalk/capability/v1/grant.go:764-809 | control grants are filled, validated, printed and signed, at most two minutes long |
| ControlGrants.ControlDefaultsChosen | gen/go/dirextalk/capability/v1/grant.go:764-782 | a control grant without an expiry lives for the codec's lifetime, two minutes at most, from its issue time, unless the sum leaves 64 bits |
| Issuance.ControlSignMeaning | gen/go/dirextalk/capability/v1/grant.go:764-809 | control signing succeeds iff the key is raw and the filled claims are well formed, print and fit the size |
| ControlGrants.ControlRoundTrip | gen/go/dirextalk/capability/v1/grant.go:786-864 | control claims are read back exactly iff their integers are stable |
| ControlGrants.ControlIsJudged | gen/go/dirextalk/capability/v1/grant.go:821-879 | a verifier's exact decision on any signed control grant |
| ControlGrants.AcceptedControlIsAuthentic | gen/go/dirextalk/capability/v1/grant.go:821-930 | whatever control bytes are accepted hold a canonical payload and a signature of it under the key, live two minutes at most, and are bound to the request |
| Acceptance.ControlMeaning | gen/go/dirextalk/capability/v1/grant.go:821-930 | a control verifier returns exactly the live, well-formed claims that the grant authentically spells, when owner, generation, operation, action, scope and chain are those of request and call, the deadline is covered and the call came from the entry |
| ControlGrants.ControlRouteAgrees | gen/go/dirextalk/capability/v1/grant.go:932-947 | control grants and grants with the same entry predict the same boundary route |
| ControlGrants.PurposesSeparate | gen/go/dirextalk/capability/v1/grant.go:272 | no text is accepted by more than one of the root, delegation and control verifiers, whatever the keys, clocks and requests |
| ControlSet.ValidateEnvelopes | gen/go/dirextalk/capability/v1/validation.go:17-47 | the loop accepts iff at most four well-formed envelopes have pairwise distinct actions |
| ControlSet.ExactCover | gen/go/dirextalk/capability/v1/replay.go:202-219 | as many distinct actions as required, all of them required, leave none missing |
| ControlSet.VerifyEnvelopeSet | gen/go/dirextalk/capability/v1/replay.go:194-248 | when the set is accepted, that the keys are exactly the required actions, and that each claim matches its envelope, owner, generation, operation and chain |
| ControlCover.SetMeaning | gen/go/dirextalk/capability/v1/replay.go:194-248 | a set is accepted iff its envelopes are accepted one by one, for as many different actions as are required, all of them required; the checks of the binding on its own follow |
| Replay.ReceiptIsExact | gen/go/dirextalk/capability/v1/replay.go:110-124 | a replayed receipt passes iff it is the recorded one under a valid key |
| Replay.RenewalMeaning | gen/go/dirextalk/capability/v1/replay.go:140-171 | a renewal is a valid root grant that differs in chain and timestamps at most |
| Replay.KeysOfGrants | gen/go/dirextalk/capability/v1/replay.go:50-72 | the valid replay keys are exactly the keys of valid root grants, but for names with control characters that only the grant rule refuses |
| Replay.RenewalEquivalence | gen/go/dirextalk/capability/v1/replay.go:140-171 | renewal is reflexive on valid root grants, symmetric and transitive |
| Replay.ChainRenews | gen/go/dirextalk/capability/v1/replay.go:140-171 | along a chain of any length every grant renews every other |
| Replay.ChainKeepsKey | gen/go/dirextalk/capability/v1/replay.go:75-91 | the replay keys of a renewal chain all match |
| OperationState.TransitionsDocumented | gen/go/dirextalk/capability/v1/operation_state.go:50-102 | the allowed transitions are the documented ones, admission, repeated terminal states and reconciliations |
| OperationState.AdvanceRank | gen/go/dirextalk/capability/v1/operation_state.go:50-114 | every change a validator allows lowers the rank, reaches running only from pending, and leaves no terminal state |
| OperationState.RecoverFences | gen/go/dirextalk/capability/v1/operation_state.go:74-90 | a restart turns pending and running into uncertain, leaves every other known state, and fails exactly on unknown numbers |
| OperationState.ReconcileResolves | gen/go/dirextalk/capability/v1/operation_state.go:92-102 | reconciliation leads from uncertain to the three terminal states and nowhere else |
| OperationState.TerminalUpdates | gen/go/dirextalk/capability/v1/operation_state.go:104-114 | a terminal state admits only its own repetition under the same 32-byte digest |
| OperationState.FencePreserved | gen/go/dirextalk/capability/v1/operation_state.go:159-184 | a tombstone accepts a key iff the live key check does |
| OperationState.RootFenceWeaker | gen/go/dirextalk/capability/v1/operation_state.go:139-153 | the root fence accepts exactly the keys that agree on UUID and root digest |
| OperationState.DigestFences | gen/go/dirextalk/capability/v1/operation_state.go:119-153 | the final-digest and root-digest fences accept exactly the recorded UUID and digest of a terminal tombstone |
| OperationState.RootFenceAdmitsOtherOwner | gen/go/dirextalk/capability/v1/operation_state.go:139-184 | it admits another owner's retry, which the full fence refuses |
| OperationState.FinalFenceRefusesRenewal | gen/go/dirextalk/capability/v1/operation_state.go:119-133 | for a start the replay fence accepts, the final-digest fence accepts iff its final digest is the recorded one |
| OperationLedger.StepAdvances | gen/go/dirextalk/capability/v1/operation_state.go:50-114 | one step keeps every key, advances a state only as a validator allows, and leaves terminal receipts whole |
| OperationLedger.RunSafety | docs/protocol.md:122-130 | over any interleaving an operation runs at most once, never after it was running, uncertain or terminal, and its changes are bounded by its rank, at most four |
| OperationLedger.RestartFences | docs/protocol.md:122-130 | after a restart no known operation is pending or running |
| OperationLedger.NothingRunsAfterRestart | docs/protocol.md:122-130 | in any run after a restart no operation admitted before it is executed |
| OperationLedger.PermittedOnTerminal | gen/go/dirextalk/capability/v1/operation_state.go:50-114 | the validators permit nothing on a terminal receipt but repeating its state |
| OperationLedger.RunKeeps | docs/protocol.md:122-130 | over any run keys stay bound and terminal receipts never change, across compaction too; the state by the validators, the revision by the recording rule |
| OperationLedger.StartDecision | gen/go/dirextalk/capability/v1/replay.go:72-91 | a later start replays iff it carries the key the operation was admitted with; otherwise it is a conflict, and it never changes the ledger |
| OperationLedger.RenewedStartReplays | gen/go/dirextalk/capability/v1/replay.go:132-171 | a start under any renewal of the root grant replays the first admission, whatever happened in between |
| OperationLedger.StepByReceipts | gen/go/dirextalk/capability/v1/operation_state.go:155-184 | ledgers with the same receipts answer every event alike |
| OperationLedger.CompactionInvisible | gen/go/dirextalk/capability/v1/operation_state.go:155-184 | a run that compacts at will answers every other event as the run that never compacts |
| Metadata.TokensAreCanonical | gen/go/dirextalk/capability/v1/metadata.go:141-150 | the accepted tokens are exactly the unpadded base64url texts of 32 bytes |
| Metadata.TokenInverse | gen/go/dirextalk/capability/v1/metadata.go:27-58 | formatting and parsing an authorization value are inverse, both ways |
| Metadata.GenerationInverse | gen/go/dirextalk/capability/v1/metadata.go:127-137 | the only accepted spelling of a generation is its decimal text |
| Metadata.MetadataInverse | gen/go/dirextalk/capability/v1/metadata.go:80-139 | parsing accepts exactly the values that formatting produces, and gives back the same metadata |
| Tokens.OperationIdIsToken | gen/go/dirextalk/capability/v1/validation.go:61-91 | an operation UUID is acceptable wherever a token is asked for |
| Identifiers.OperationIdMeaning | gen/go/dirextalk/capability/v1/validation.go:61-91 | operation identifiers are exactly the RFC 9562 texts of sixteen bytes that are not all zero |
| Identifiers.TokenRules | gen/go/dirextalk/capability/v1/grant.go:703-713 | grant tokens are the replay tokens without late control characters, and up to 128 bytes the context tokens without control characters and arrows |

## Left out

- Ed25519 and SHA-256: a signature scheme is any pair with `verify(public(k), m, sign(k, m))`; digests are compared by their preimages.
- PEM and PKCS#8 keys: only raw 32- and 64-byte keys are modelled; key material that contains a PEM header is refused.
- Clocks: the current time is a parameter, one reading per call, also where the set verifier reads the clock once per envelope.
- Error message texts; errors are one value per sentinel of the source.
- Go floats, structs, `json.Marshaler` and `json.RawMessage` as inputs of the canonicaliser, and dispatch over Go kinds: values are nil, booleans, integers, strings, number texts, byte slices, and references to pointers, slices and string-keyed maps.
- Addresses outside the modelled heap: the traversal reports an error for them; Go has none.
- The tree that `CanonicalizeJSON` decodes is printed by the specification function, not through freshly allocated Go maps and slices; the heap traversal is proved equal to that function.
- Number texts that Go's parsers accept beyond JSON (`0x` digits, underscores, `Inf`, non-ASCII blanks around a `json.Number`) are refused.
- Exponents are unbounded integers; Go's saturation of absurdly long exponents is not modelled.
- Case-insensitive matching of struct field names when a payload is decoded.
- A nil call context in the route functions; the grant verifiers model it as an absent one.
- `GrantCodec.Verify` with its generic binding, which accepts both root and child grants: one more guard chain.
- `ValidateProductDelegationExchangeRequest`, its response, `ValidatePermissionContext` and `ValidateQueryRequest`: shape checks without state.
- Retention periods: the ledger may compact a terminal receipt at any time.
- What a ledger stores is not fenced by the validators alone: they fence state and key, and `OperationLedger.Record` keeps the revision of a terminal receipt as `docs/protocol.md:126-127` requires.
- Control grants as part of a start response beyond the set verifier, the product-active chain fence, connection pools and timeouts: no code here implements them.
- Generated protobuf and gRPC code.
