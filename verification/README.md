# Authorizer, verified

Authorizer is an OAuth 2.0 and OpenID Connect server. Most of what it promises is not the work of
one function: a browser is sent through several requests that meet only in a shared key/value store,
a cookie jar and a table of accounts. This project models those protocols in Dafny and proves what
they guarantee over every run, together with the codecs, caches and walks they rest on.

`dafny verify dfyconfig.toml` checks everything.

## The model in short

| module | what it is about |
|---|---|
| `Consent` | The consent page of self-asserted clients: pending requests, single-use grants, and the gate in `/authorize`, over every interleaving with expiry |
| `Form`, `Escape`, `Listing` | url.Values, percent-encoding and sorted keys: why a replayed request is the request that was shown |
| `Authorize`, `ResponseType` | Which requests `/authorize` accepts, and why it refuses the others |
| `Response` | What leaves the server in which response mode, as text, and what a client reads back from it |
| `Sessions`, `SessionValue` | Login sessions rolled over again and again, `max_age`, forced re-authentication, digests in the session store |
| `Reading`, `Endpoint` | One whole `/authorize` request, from its form to the answer, composed of the parts above, what it leaves in both stores, and its replay after consent |
| `Redeem` | What a code is worth at the token endpoint: to which client, with which redirect URI, resource and PKCE proof |
| `CodeState`, `Bridge` | The `@@`-delimited blobs, and the way a request takes through a social login to its code entry |
| `Redirect` | Redirect-URI matching, and the way the request takes through the login page |
| `LoginFlow` | Social-login flows bound to the browser that began them |
| `Accounts`, `Methods` | Which account a social login resolves to: create, link, replace or refuse |
| `MetadataCache` | The bounded cache of client metadata documents |
| `QueryLimits` | The fused depth-and-alias walk over GraphQL operations |
| `Text`, `Numbers` | Go strings as byte sequences, with the parts of package strings that are used, and decimal numerals |

Protocols are state machines: a `State` (stores, requests in flight, a log of what happened), a `Step`
for every atomic access, `Enabled`, `Apply`, `Run` and `After`. Each has an invariant that every step
keeps, and the main theorems are read off it for all runs. Code that updates things step by step is a
class or a method whose contract ties it to the same specification functions.

Standing hypotheses are explicit: handles, codes and ids are drawn fresh; SHA-256 has no collision
among the finitely many texts in play (never for all texts, which would be inconsistent with a fixed
length); user ids hold no colon. No hypothesis is made on the keys and texts callers choose.

Where a property fails of the code, a lemma gives the run or the input, and the exact condition is
proved:

- `/authorize` writes the caller's nonce, as it is, under the caller's `state`. `Consent.ConsentLedger`
  and `LoginFlow.FlowBound` therefore count, or name, what is written under a grant, a pending key or a
  handle; `Consent.ConsentSafety` holds without such writes. `Consent.IssuedUnapproved`,
  `Consent.ApprovedUnseen` and `LoginFlow.WrittenFlowCompletes` are the runs, and
  `Consent.StrayGrantOpens` and `Consent.StrayPageApproves` say for which texts they exist.
- A code that a social callback binds was asked for, unless it was read out of some other text under
  the callback's state: a bare nonce, a code entry, a stored login flow, or anything else a part of the
  server wrote (`Bridge.BoundOrigins`). `Bridge.TextBindsExactly` is the condition on the text,
  `Bridge.TextBindsUnasked` the runs, and `Bridge.TextsThatName` gives two such texts.
- The blobs come back exactly when their three unescaped fields neither contain `@@` nor end in `@`
  (`CodeState.CodeRoundTrip`, `CodeState.AuthorizeRoundTrip`, `CodeState.LegacyCode`,
  `Bridge.BridgeFaithful`).
- Redirects carry the caller's `state` without escaping. A client reads exactly the answer if and only
  if `state` holds none of `&`, `;`, `+`, `%`, and in query mode neither it nor the redirect URI holds
  `#` (`Response.DeliveredExactly`, with `Response.StateAddsParameter` as the example).
- A social-login flow can complete twice (`LoginFlow.CompletesTwice`), and only if the second callback
  read before the first finished (`LoginFlow.CompletesAgainOnly`).
- A social login writes back the whole row it read. Whatever happened to the row in between is undone
  (`Accounts.LastWriteWins`): a role taken away returns, a revocation and a confirmation are lost, a
  provider linked meanwhile is unlinked (`Accounts.StaleReadRestoresRole`, `Accounts.StaleReadUnrevokes`,
  `Accounts.StaleReadForgetsConfirmation`, `Accounts.StaleReadUnlinks`). `Accounts.StoredKeptExactly`
  says for every state when each field of the stored row is kept, and `Accounts.UpToDateRunKeeps` that
  over every run in which logins go on only with what is stored, all of them are.
- An attested login does not verify an account that its own provider made unattested, so a later attested
  login by another provider takes the place of that account if it is empty (`Accounts.OwnLoginDoesNotVerify`);
  `Accounts.SecondLogin` says exactly when a second login resolves the same account.
- A code of a request that gave no redirect URI is redeemed only by repeating `/app`, and one that went through
  a social login or a hybrid flow is not bound to its resource (`Redeem.IssuedRedeems`, `Redeem.ParkedRedeems`).
- A verified account survives unless a callback under way read it before it was verified
  (`Accounts.VerifiedSurvives`, `Accounts.StaleReadDestroys`).
- With no redirect URI `/authorize` accepts and forwards `/app`, which the login page checks: it accepts
  exactly if the client may use it (`Redirect.AppAcceptsAgain`).
- A provider appended by a substring test becomes an owner exactly when it was one or its name occurs
  nowhere in the stored text (`Methods.LinkedOwns`, `Methods.SubstringMisleads`); on what the server
  stores it always does (`Methods.StoredIsClear`, `Methods.LinkedClear`).
- A `max-age` is honoured as asked unless the product with nanoseconds wraps at 64 bits to less than an
  hour (`MetadataCache.LifetimeExact`, `MetadataCache.TTLWraps`).

## Model

| member | source | states |
|---|---|---|
| `Consent.ConsentLedger` | internal/http_handlers/consent.go:223-353 | In every interleaving and whatever callers write under whatever keys, per user, client and parameter set: issuances past the gate plus outstanding grants never exceed that user's own approvals plus the texts written under the grant's name; approvals plus pending pages never exceed pages rendered plus the pages written by others |
| `Consent.ConsentSafety` | internal/http_handlers/consent.go:223-353 | Without such writes, as under foreign keys, issuances plus outstanding grants never exceed the user's own approvals, and approvals plus pending pages never exceed pages rendered |
| `Consent.RunKeeps` | internal/http_handlers/consent.go:114-141 | The counting invariant survives every run of gate, render, submit, record, expiry and arbitrary writes |
| `Consent.StepKeeps` | internal/http_handlers/authorize.go:710-796 | Each single access keeps the two inequalities for all requests at once |
| `Consent.ForeignIsHarmless` | internal/http_handlers/authorize.go:510-528 | A write under a key outside the two consent prefixes makes neither a grant nor a page |
| `Consent.StrayGrantOpens` | internal/http_handlers/authorize.go:510-528 | In any state, a text written under a grant's name lets the request past the gate if and only if it is not empty |
| `Consent.StrayPageApproves` | internal/http_handlers/authorize.go:523 | In any state, a text written under a pending key is approved by a user if and only if it reads as that user's request |
| `Consent.IssuedUnapproved` | internal/http_handlers/authorize.go:510-528 | The run: from any initial state one write under a grant's name gives an issuance and no approval |
| `Consent.ApprovedUnseen` | internal/http_handlers/authorize.go:523 | The run: from any initial state one write under a pending key gives an approval and no page |
| `Consent.GrantKeyInjective` | internal/http_handlers/consent.go:372-375 | A grant key determines user, client and parameters, although client ids hold colons |
| `Consent.KeySpacesDisjoint` | internal/http_handlers/consent.go:372-391 | Pending keys and grant keys never coincide, and neither is foreign |
| `Consent.PendingKeyInjective` | internal/http_handlers/consent.go:391 | A pending key determines its consent id |
| `Consent.ReplayIsSameRequest` | internal/http_handlers/consent.go:344-353 | The request the browser is redirected to has the same client, redirect URI and parameters as the one shown |
| `Consent.GrantSurvives` | internal/http_handlers/consent.go:344-353 | A recorded grant stays until it expires or its own request takes it, whatever else happens |
| `Consent.ApprovalHonoured` | internal/http_handlers/authorize.go:710-720 | After an approval the replayed request gets past the gate, through any intervening steps that neither expire nor take the grant |
| `Consent.SubmissionSteps` | internal/http_handlers/consent.go:223-353 | The handler's answer is a replay exactly when the submit step approves and the grant is recorded; one that cannot record approves only; any other does neither |
| `Consent.ConsentServer.PassGate` | internal/http_handlers/authorize.go:718-720 | The gate opens exactly on a non-empty grant for this user, client and encoded parameters, and always consumes it |
| `Consent.ConsentServer.RenderConsent` | internal/http_handlers/consent.go:114-141 | Stores the page's request, with client name and scopes, under its pending key and nothing else |
| `Consent.ConsentServer.ConsentHandler` | internal/http_handlers/consent.go:223-353 | Which of the eight answers a submission gets, a failing store included, and the store it leaves, for every id, submitter and action |
| `Consent.ConsentServer.Approve` | internal/http_handlers/consent.go:114-353 | A page and its approval: the grant is recorded under the prefix, user, client and digest of the very arguments the page was made from, and the browser is sent back with the same parameters |
| `Consent.ConsentServer.ApproveAndPass` | internal/http_handlers/authorize.go:710-720 | Then the same form, client and user get past the gate once and only once |
| `Consent.ConsentServer.Decline` | internal/http_handlers/consent.go:223-353 | A page that is declined goes to the redirect URI it was made with, and grants nothing |
| `Form.ReplayFaithful` | internal/http_handlers/consent.go:380-389 | Parsing the stored query and taking first values again gives the same map and the same text, for every form |
| `Form.FormRoundTrip` | internal/http_handlers/consent.go:123 | Parsing an encoded map of non-empty value lists gives the map back |
| `Form.EncodedInjective` | internal/http_handlers/consent.go:372-375 | Different parameter maps have different encodings |
| `Form.PairsRoundTrip` | internal/http_handlers/consent.go:123 | Parsing encoded pairs gives the same pairs in the same order |
| `Form.OriginalParams` | internal/http_handlers/consent.go:380-389 | Whatever order the map is ranged over, the result is the first value of every parameter |
| `Form.Encode` | internal/http_handlers/consent.go:123 | Encodes in the one sorted order of the keys |
| `Listing.SortKeys` | internal/http_handlers/authorize.go:1209-1213 | Returns the sorted listing of a set |
| `Listing.ListingUnique` | internal/http_handlers/authorize.go:1209-1213 | A set has one strictly sorted listing only |
| `Escape.UnescapeEscape` | internal/cookie/oauth_state.go:77-87 | Unescaping undoes escaping for every byte string |
| `Escape.EscapeAlphabet` | internal/codestate/codestate.go:49-60 | Escaped text stays within the unreserved characters, the percent sign and the plus sign, so it holds no delimiter |
| `Escape.EscapeByteExact` | internal/codestate/codestate.go:49-60 | Which bytes stay as they are, which becomes a plus sign, and that all others become a percent sign and two digits |
| `Escape.HexEitherCase` | internal/codestate/codestate.go:62-85 | Hexadecimal digits are read in either case, and nothing else is one |
| `CodeState.CodeRoundTrip` | internal/codestate/codestate.go:49-85 | DecodeCode undoes EncodeCode if and only if challenge, session and nonce neither contain the delimiter nor end in half of it |
| `CodeState.AuthorizeRoundTrip` | internal/codestate/codestate.go:99-136 | The same equivalence for the /authorize blob, which is always recognised as a code flow |
| `CodeState.LegacyCode` | internal/codestate/codestate.go:62-85 | A blob cut after k slots decodes to the same record with the later fields empty if and only if its slots can be told apart |
| `CodeState.LegacyAuthorize` | internal/codestate/codestate.go:114-136 | The same equivalence for /authorize blobs of two slots or more |
| `CodeState.HasCodeExact` | internal/codestate/codestate.go:140-142 | HasCode holds exactly when splitting gives two parts or more; otherwise the whole text is the nonce |
| `CodeState.DecodeCode` | internal/codestate/codestate.go:62-85 | The guarded field-by-field decoder computes the slot-wise parse, on every text |
| `CodeState.DecodeAuthorize` | internal/codestate/codestate.go:114-136 | The same for the /authorize decoder |
| `Bridge.BridgeFaithful` | internal/http_handlers/oauth_callback.go:454-527 | In every run, a code entry that stands on an /authorize request decodes to its challenge, nonce, redirect URI and client id if and only if challenge, nonce and session are delimiter-safe |
| `Bridge.BoundOrigins` | internal/http_handlers/oauth_authorize_state.go:14-31 | In every run, whatever any part of the server writes under whatever keys: no stored text feeds two callbacks, and a bound code was asked for under that very code, or is the one named by the other text that the callback was given |
| `Bridge.TextBindsExactly` | internal/http_handlers/oauth_authorize_state.go:14-31 | In any state, a text put under a key by anything but a code flow ends in a code entry of its own if and only if it holds the delimiter, and not at its start |
| `Bridge.TextBindsUnasked` | internal/http_handlers/oauth_callback.go:454-527 | From nothing, any such text has a code bound that nobody asked for |
| `Bridge.TextsThatName` | internal/http_handlers/oauth_login.go:100-126 | A nonce and a stored login flow are such texts, for a nonce or scope that holds the delimiter |
| `Bridge.CrossExact` | internal/http_handlers/oauth_callback.go:454-527 | Encode, decode and re-encode give back the request without its resource if and only if challenge, nonce and session are delimiter-safe |
| `Bridge.BoundWasAsked` | internal/http_handlers/oauth_authorize_state.go:14-31 | If no callback takes a text that names a code without being the request for it, every code that is bound was asked for |
| `Bridge.RunKeeps` | internal/http_handlers/oauth_authorize_state.go:14-31 | The invariant behind these survives every interleaving with expiry, overwriting, withheld logins and writes by any other part of the server |
| `Bridge.TakenIsAsked` | internal/http_handlers/oauth_authorize_state.go:25-31 | What is consumed is what was stored, without the resource |
| `Bridge.CodeReadBack` | internal/http_handlers/authorize.go:499-528 | The code itself is read back right even when challenge or nonce are not delimiter-safe |
| `Bridge.StateStore.ConsumeAuthorizeState` | internal/http_handlers/oauth_authorize_state.go:14-31 | Removes the entry before decoding it; empty, missing, bare-nonce and code entries each resolve as they should |
| `Bridge.StateStore.CrossBridge` | internal/http_handlers/oauth_callback.go:520-527 | One pass over the store leaves a code entry that reads back as the request if and only if its fields are delimiter-safe |
| `Redeem.IssuedRedeems` | internal/http_handlers/token.go:358-552 | A code /authorize has issued is accepted, for a day, if and only if the client is the one of the request, its redirect URI (or /app) and in the code flow its resource are repeated, and the verifier is that of its challenge by its method, or a secret is given if it had no challenge; it yields the user of the presented session and the nonce of the request |
| `Redeem.ParkedRedeems` | internal/http_handlers/token.go:358-552 | The same equivalence for a request that was parked, taken by a social callback and bound to its session, except that the resource is not bound |
| `Redeem.ParkedNonce` | internal/http_handlers/authorize.go:522-528 | Without a code flow, what is parked reads back as the nonce alone |
| `Redeem.TokenServer.RedeemCode` | internal/http_handlers/token.go:346-552 | Uses the code up whatever comes of it, and answers exactly a matching request on a good session |
| `Redeem.TokenServer.CheckProof` | internal/http_handlers/token.go:446-535 | The branches on challenge, method, verifier, strict mode and secret decide one predicate |
| `Redeem.ChallengeDataReads` | internal/http_handlers/token.go:446-453 | The stored challenge asks for exactly the proof the request named, and is delimiter-safe if and only if the challenge holds no delimiter |
| `Redeem.ChallengeReads` | internal/http_handlers/token.go:446-453 | Challenge and method are told apart whatever colons the challenge holds |
| `ResponseType.SupportedResponseTypeSet` | internal/http_handlers/authorize.go:1196-1232 | Accepts exactly the non-empty sets of the three components and returns their canonical spelling |
| `ResponseType.OnlyComponentsMatter` | internal/http_handlers/authorize.go:1196-1232 | Order, repetition, case and spacing of the components change neither acceptance nor the canonical form |
| `ResponseType.CanonicalIdempotent` | internal/http_handlers/authorize.go:1196-1232 | The canonical form is its own canonical form |
| `ResponseType.FieldsSpaced` | internal/http_handlers/authorize.go:1197 | Words with any white space between them split into those words |
| `ResponseType.ListedExact` | internal/http_handlers/authorize.go:1216-1231 | The seven listed spellings are the canonical forms of the supported sets, and nothing else |
| `ResponseType.FlagsExact` | internal/http_handlers/authorize.go:302-313 | The handler's string tests mean what they say of the set: code only, hybrid and implicit part the accepted inputs |
| `ResponseType.BareTokenExact` | internal/http_handlers/authorize.go:1346-1353 | The bare-token test is membership of token, and is not fooled by id_token |
| `ResponseType.Classify` | internal/http_handlers/authorize.go:293-313 | Classifies every raw response type by its component set |
| `Authorize.Validate` | internal/http_handlers/authorize.go:156-434 | A request proceeds if and only if it is acceptable; every refusal has its own reason and response mode, invalid_request included, and only an accepted redirect URI is ever sent one |
| `Authorize.CheckTarget` | internal/http_handlers/authorize.go:160-262 | Redirect URI, resource indicator and request objects: passed exactly when in order |
| `Authorize.CheckType` | internal/http_handlers/authorize.go:293-434 | Response type, mode, PKCE of self-asserted clients, strict mode, state and nonce: proceeds exactly when in order |
| `Authorize.CheckFlow` | internal/http_handlers/authorize.go:315-434 | The same for a response type already classified; strict mode never lets a front-channel access token through |
| `Authorize.ErrorGoes` | internal/http_handlers/authorize.go:1432-1440 | An error goes to the client if and only if it gave a redirect URI other than /app |
| `Response.Contents` | internal/http_handlers/authorize.go:865-1180 | The map a page posts holds each wanted parameter with its value and no other, in each of the seven branches |
| `Response.BuildResponse` | internal/http_handlers/authorize.go:865-1186 | A page posts exactly the wanted parameters; from a redirect a client reads exactly those, after what the redirect URI carried, if and only if the state survives; tokens never go in a query |
| `Response.DeliveredExactly` | internal/http_handlers/authorize.go:885-1180 | For every response type and both redirect modes, parsing the location gives what the redirect URI carried followed by exactly the answer if and only if the raw state holds none of the four bytes, and in query mode neither it nor the URI holds a number sign |
| `Response.TextReads` | internal/http_handlers/authorize.go:885-1163 | The same for the appended text alone, in every branch |
| `Response.StateAddsParameter` | internal/http_handlers/authorize.go:1041 | At one state: an answer with only a code reads back with an access_token |
| `Response.AnswerHolds` | internal/http_handlers/authorize.go:865-1180 | The pairs of an answer are those of the components of its response type, with their values |
| `Response.AnswerSpelled` | internal/http_handlers/authorize.go:865-1163 | The names, values and order of the answer of each of the seven response types, spelled out |
| `Response.Params` | internal/http_handlers/authorize.go:885-1163 | The concatenations of each branch build the text of those pairs |
| `Response.ParseAppend` | internal/http_handlers/authorize.go:895-899 | Parsing distributes over the separator, so what the redirect URI carried is read as before |
| `Sessions.AuthTimeIsLoginTime` | internal/http_handlers/authorize.go:977-984 | Over every run of logins, of rollovers by /authorize and by the session query, a session that validates carries the time of the login that began its chain |
| `Sessions.MaxAgeHonoured` | internal/http_handlers/authorize.go:562-609 | No answered request had prompt=login or a numeral of zero for max_age, and one with a numeral of n > 0 and not prompt=none was checked within n seconds of the login |
| `Sessions.ForcedReauthIsFinal` | internal/http_handlers/authorize.go:584-604 | prompt=login, a numeral of zero, or one that the login is further back than, leaves the presented session dead in every later state of every run |
| `Sessions.ForcesExactly` | internal/http_handlers/authorize.go:126-134 | A login is forced if and only if prompt=login, or max_age is a numeral of zero, or a numeral of less than the age of the login without prompt=none |
| `Sessions.NothingForces` | internal/http_handlers/authorize.go:126-134 | Without a max_age, or with a negative or unreadable one, only prompt=login forces anything |
| `Numbers.AtoiExact` | internal/http_handlers/authorize.go:126-134 | strconv.Atoi reads exactly the numerals, signed or with leading zeros, of the numbers that fit 64 bits, as those numbers |
| `Sessions.SlotsApart` | internal/token/auth_token.go:699-752 | Sessions of different users, methods or nonces have different places in the store |
| `Sessions.RolloverIsFinal` | internal/http_handlers/authorize.go:798-806 | A session that was rolled over never validates again |
| `Sessions.DeadStaysDead` | internal/token/auth_token.go:699-752 | A minted session that is not in the store does not come back |
| `Sessions.ValidatesExact` | internal/token/auth_token.go:699-752 | In reachable states a session validates exactly while its slot holds it and it has not expired |
| `Sessions.ValidatedIsMinted` | internal/token/auth_token.go:699-752 | Only tokens this server minted validate |
| `Sessions.RunKeeps` | internal/http_handlers/authorize.go:562-823 | The session invariant survives every interleaving of logins, requests, rollovers and expiry |
| `Sessions.RenewKeeps` | internal/service/session.go:101-166 | The session query mints the new session before it drops the old one, and with the authentication time of that one: the invariant survives |
| `Sessions.ChainStartIsLogin` | internal/token/auth_token.go:247-275 | Every chain goes back to a logged login |
| `SessionValue.VerifyExact` | internal/crypto/session_value.go:42-51 | Verification succeeds exactly on the stored token, in either format, unless two digests collide |
| `SessionValue.TokenIsNotDigest` | internal/crypto/session_value.go:42-51 | No raw token can be mistaken for a digest |
| `SessionValue.RepresentsOne` | internal/crypto/session_value.go:25-51 | A stored value stands for one token, up to digest collisions |
| `Endpoint.AuthorizeServer.Handle` | internal/http_handlers/authorize.go:85-1186 | The whole handler, from the form: credentials leave if and only if the request it reads as is acceptable to the client's own rule, its session is good and fresh enough, and the grant named by user, client and parameters is there; the stores after every answer, faults included; prompt=none shows no consent page |
| `Endpoint.AuthorizeServer.Process` | internal/http_handlers/authorize.go:156-1186 | The same for any request and any facts about its client |
| `Endpoint.AuthorizeServer.Continue` | internal/http_handlers/authorize.go:562-1186 | The same from the session check on, for any response type; exactly when the consent page is shown |
| `Endpoint.AuthorizeServer.CheckSession` | internal/http_handlers/authorize.go:562-692 | Passes exactly a good session of a known user; forcing drops the session with its access token, and nothing else does |
| `Endpoint.AuthorizeServer.CheckConsent` | internal/http_handlers/authorize.go:710-796 | Passes exactly with the grant of this user, client and encoded parameters, or for clients that need none; the grant is consumed either way, and a page is kept exactly when it is shown |
| `Endpoint.AuthorizeServer.Answer` | internal/http_handlers/authorize.go:798-1186 | The stores after the rollover, wherever a fault stops it, the access token's included, and the delivery |
| `Endpoint.AnswerMeans` | internal/http_handlers/authorize.go:798-1160 | After an answer the code entry reads back as this request exactly when its fields are delimiter-safe, the new session validates and keeps the login time, the old one no longer validates whatever the nonce, the grant is gone, and the access token that was minted verifies |
| `Endpoint.RefusalsLeave` | internal/http_handlers/authorize.go:562-796 | A forced login ends the presented session with its access token and nothing else; a request without a good session changes nothing; one without its grant leaves its page exactly if that is shown, and all sessions |
| `Endpoint.SelfAssertedNeedsProof` | internal/http_handlers/authorize.go:353-395 | A client with a dynamic row and a redirect URI, or with a document, is given nothing but a code, only with an S256 challenge, and only with the grant of this user for this client and these parameters |
| `Endpoint.UnknownGetsNothing` | internal/http_handlers/client_redirect.go:57-133 | A client whose row cannot be read or whose document does not resolve is given nothing at a redirect URI of its own |
| `Endpoint.GrantNamed` | internal/http_handlers/consent.go:372-391 | Grant and page are named after the user of the presented session, the client, the parameters and the page id |
| `Endpoint.ReplayIssuedExactly` | internal/http_handlers/consent.go:344-353 | The round trip of consent: a request shown its page and sent back with the parameters kept there reads as itself, and is given credentials if and only if nothing fails, its session is good for it, and the grant that approving the page records is there, or its own state is that grant's name |
| `Endpoint.ReplayKeys` | internal/http_handlers/authorize.go:718 | The replayed request looks for the grant that approving its page records |
| `Endpoint.MakeKeys` | internal/http_handlers/consent.go:114-141 | The names of grant and page, and the page's text, are those of the request the form stands for |
| `Reading.ReplayReadsSame` | internal/http_handlers/authorize.go:91-122 | A form sent back as the query of a redirect reads as the same request, but for repeats of the resource |
| `Reading.AcceptedAgain` | internal/http_handlers/authorize.go:91-122 | A request that was accepted reads back as exactly itself |
| `Reading.AcceptedExactly` | internal/http_handlers/authorize.go:156-434 | Exactly which forms are accepted, by the names and values of their parameters and the entries of the registry |
| `Reading.ModeChosen` | internal/http_handlers/authorize.go:149-328 | Which response mode the answer is delivered in, for every accepted form |
| `Reading.ReadsExactly` | internal/http_handlers/authorize.go:91-122 | A form reads as a request if and only if it holds that request's texts under their names |
| `Reading.ReadEncoded` | internal/http_handlers/authorize.go:91-93 | A parameter given in a query is read as its first value, trimmed, and one that is not given as nothing |
| `Endpoint.StateMakesGrant` | internal/http_handlers/authorize.go:510-528 | The request's own first write makes a grant exactly when its state is the name of that grant |
| `Endpoint.StoresDigest` | internal/http_handlers/authorize.go:849-1147 | Which response types keep the new session as a digest |
| `Endpoint.StoresToken` | internal/http_handlers/authorize.go:849-1147 | Which response types keep an access token, delivered or not |
| `Redirect.MatchesEquivalence` | internal/http_handlers/authorize.go:1262-1302 | Redirect-URI matching is reflexive, symmetric and transitive |
| `Redirect.MatchClasses` | internal/http_handlers/authorize.go:1262-1312 | Classes off the three loopback hosts are singletons; on them they fix scheme, host, path and query |
| `Redirect.RegisteredClientExact` | internal/http_handlers/client_redirect.go:57-133 | A client with a registered list is accepted exactly on the union of the classes of its entries |
| `Redirect.CheckExact` | internal/http_handlers/client_redirect.go:57-133 | From the registry alone: when there is no answer, when a client is self-registered, and exactly which redirect URIs it may use, for every kind of client |
| `Redirect.TrimList` | internal/http_handlers/client_redirect.go:137-145 | The loop keeps the trimmed entries that are not blank, in order |
| `Redirect.TrimmedExact` | internal/http_handlers/client_redirect.go:137-145 | Exactly those entries are kept |
| `Redirect.AuthState` | internal/http_handlers/authorize.go:462-500 | The concatenated text is the form encoding of the parameters in order |
| `Redirect.DetourReadsAll` | internal/http_handlers/app.go:30-74 | The login page reads, under their own names, all thirteen parameters that /authorize passes on, whatever they hold |
| `Redirect.AppAcceptsAgain` | internal/http_handlers/app.go:30-74 | A redirect URI that is given is judged by /app as by /authorize, while the registry is unchanged; without one /authorize accepts, and /app does if and only if the client may use the default |
| `LoginFlow.FlowBound` | internal/http_handlers/oauth_callback.go:68-127 | With many browsers and flows interleaved and anything written by others, a callback that passes the binding check completed that same browser's latest login as of the request, with the parameters stored then unless a flow was written under that handle, and for a named provider |
| `LoginFlow.WrittenFlowCompletes` | internal/http_handlers/oauth_callback.go:68-116 | In any state, a flow written under the handle a browser is bound to is the one that browser completes |
| `LoginFlow.CompletesAgainOnly` | internal/http_handlers/oauth_callback.go:70-116 | In every run a handle completes a second time only if the second callback read before the first finished, or a flow was written under it in between |
| `LoginFlow.CompletesTwice` | internal/http_handlers/oauth_callback.go:70-116 | In any state where a flow can be completed, two callbacks that both read before either finishes both complete it |
| `LoginFlow.OneFlowTwice` | internal/http_handlers/oauth_callback.go:70-116 | The run: one login and two callbacks, from nothing |
| `LoginFlow.OneCompletable` | internal/cookie/oauth_state.go:33-96 | At any time a browser can complete at most its own latest flow, and no two browsers the same one; only a flow written under the empty key is open to browsers without a cookie |
| `LoginFlow.RunKeeps` | internal/http_handlers/oauth_login.go:100-147 | The binding invariant survives every interleaving, with read and removal as two steps, lost cookies, failed stores, expiry and arbitrary writes |
| `LoginFlow.FinishedOwn` | internal/http_handlers/oauth_callback.go:102-116 | The comparison of cookie and state singles out the browser's own flow |
| `LoginFlow.LoginServer.OAuthLogin` | internal/http_handlers/oauth_login.go:28-160 | Goes to the provider if and only if the request may start and the store works; the cookie unescapes to the handle, and the stored flow is validated and carries the state, scope, roles and redirect the query asked for; the verifier sent is the one stored; other entries are untouched |
| `LoginFlow.LoginServer.OpenCallback` | internal/http_handlers/oauth_callback.go:68-116 | Hands on the flow exactly when it is stored for this provider and bound to this browser; a request turned away burns nothing |
| `LoginFlow.LoginServer.LoginAndReturn` | internal/http_handlers/oauth_login.go:28-160 | A login and its callback in one browser: the callback is handed what the query asked for, once and only once |
| `LoginFlow.FlowCompletes` | internal/http_handlers/oauth_callback.go:68-116 | In any state, the steps of a login and its callback complete that flow and leave the store as it was |
| `LoginFlow.FlowOf` | internal/http_handlers/oauth_login.go:30-84 | A flow is stored exactly for an allowed redirect and known roles, with the defaults where nothing was given |
| `LoginFlow.IsValidRoles` | internal/validators/roles.go:6-16 | True exactly when every requested role is allowed |
| `Accounts.AccountsSound` | internal/http_handlers/oauth_callback.go:206-443 | After any run of logins, interleaved between lookup and commit, and of administration: a verified address was at some time vouched for, for that account; a protected role was at some time given to that account by an administrator; the substring test is exact |
| `Accounts.VerifiedSurvives` | internal/http_handlers/oauth_callback.go:315-366 | A verified account outlives every step but its own removal, under the same id, unless a callback under way read it before it was verified |
| `Accounts.StaleReadDestroys` | internal/http_handlers/oauth_callback.go:206-366 | The run: an empty account confirmed between lookup and commit of an attested login is replaced |
| `Accounts.StoredKeptExactly` | internal/http_handlers/oauth_callback.go:388-443 | For every stored row and every row read: the revocation is kept if and only if there is none, the verification if and only if it was read as it is, a stored role if and only if it was read or is asked for, a stored method if and only if it was read or is the one appended; no protected role returns if and only if none was read that has been taken away |
| `Accounts.AgreementKeeps` | internal/http_handlers/oauth_callback.go:388-443 | If the row read agrees with the stored one in roles, or in methods, what is stored there stays first and unchanged and no protected role is gained; the revocation is kept if and only if they agree in it |
| `Accounts.TwiceAtOnce` | internal/http_handlers/oauth_callback.go:388-443 | Agreement is not needed: two callbacks for the same login that overlap leave what one would |
| `Accounts.LastWriteWins` | internal/storage/db/sql/user.go:61-75 | For any steps at all between lookup and commit: the row ends as if none of them had touched it |
| `Accounts.Raced` | internal/storage/db/sql/user.go:61-75 | In any state, each single change between lookup and commit, a removal on upserting backends included, is undone: the table ends as the login alone would have left it |
| `Accounts.StaleReadRestoresRole` | internal/http_handlers/oauth_callback.go:206-443 | The run: a protected role taken away in between is held again |
| `Accounts.StaleReadUnrevokes` | internal/http_handlers/oauth_callback.go:285-443 | The run: an account revoked in between is resolved and not revoked afterwards |
| `Accounts.StaleReadForgetsConfirmation` | internal/http_handlers/oauth_callback.go:206-443 | The run: a confirmation in between is lost |
| `Accounts.StaleReadUnlinks` | internal/http_handlers/oauth_callback.go:388-443 | The run: a provider that another callback links in between no longer owns the account |
| `Accounts.UpToDateRunKeeps` | internal/http_handlers/oauth_callback.go:206-443 | Over every run whose logins go on only with what is stored, an account there at both ends has lost no role and no method, gained no protected role, and is revoked and verified as before, except in a field some step was there to set |
| `Accounts.StaysGone` | internal/http_handlers/oauth_callback.go:315-366 | In such runs an account that is gone does not come back |
| `Accounts.RunKeeps` | internal/http_handlers/oauth_callback.go:206-443 | The account invariant survives every run |
| `Accounts.VerifiedByAttestation` | internal/http_handlers/oauth_callback.go:379-383 | An address becomes verified only in a login whose provider attested it, the branch that sets it unconditionally included, or because it was verified when it was read |
| `Accounts.AttestedAtOnce` | internal/http_handlers/oauth_callback.go:223-383 | With nothing between lookup and commit, only by attestation |
| `Accounts.SignUpExactly` | internal/http_handlers/oauth_callback.go:243-282 | An account a login creates has that id, provider and roles, is not revoked, and is verified at the time of the login if and only if the address is attested |
| `Accounts.NewcomerExactly` | internal/http_handlers/oauth_callback.go:223-282 | When a login to an unknown address makes an account |
| `Accounts.KnownExactly` | internal/http_handlers/oauth_callback.go:285-443 | When a login goes on with the account that is there, and when it takes its place |
| `Accounts.SecondLogin` | internal/http_handlers/oauth_callback.go:206-443 | A second, attested login resolves the same account if and only if the first left it verified or the second provider's own |
| `Accounts.NewcomerFoundAgain` | internal/http_handlers/oauth_callback.go:206-443 | So an attested newcomer is found again by every attested provider |
| `Accounts.OwnLoginDoesNotVerify` | internal/http_handlers/oauth_callback.go:303-366 | The run in which it is not so |
| `Accounts.FaultsExactly` | internal/http_handlers/oauth_callback.go:206-443 | What each storage fault prevents, and that a refusal outside the replace branch changes nothing |
| `Accounts.SelectsOnlyItsOwn` | internal/http_handlers/oauth_callback.go:285-443 | A login resolves to an existing account only if the row it read, which may be out of date, was not revoked and either address and account were verified or the provider owned it |
| `Accounts.DestroysOnlySquatters` | internal/http_handlers/oauth_callback.go:315-366 | An account is destroyed only if it was unverified, not the provider's and not revoked when it was read, and holds nothing, whatever subset of lookups fails |
| `Accounts.FailsClosed` | internal/http_handlers/oauth_account_state.go:47-100 | An account that holds anything is seen to, whichever lookups fail; with none failing the answer is exact; without an id nothing is looked up |
| `Accounts.AccountHasState` | internal/http_handlers/oauth_account_state.go:47-100 | The early returns and the loop over the authenticator kinds compute one disjunction |
| `Accounts.RolesGrowSafely` | internal/http_handlers/oauth_callback.go:406-442 | Token roles are stored roles; compared with the row that was read, old roles stay first and unchanged and no protected role is gained |
| `Accounts.MethodsGrowSafely` | internal/http_handlers/oauth_callback.go:391-399 | Compared with the row that was read, no method is lost, whatever it held; the provider is an owner afterwards exactly when it was or its name does not occur, and always on clear lists, which stay clear |
| `Accounts.LoginAgain` | internal/http_handlers/oauth_callback.go:388-443 | The same login again resolves the same account and leaves the whole table byte for byte as it is, whatever was stored |
| `Accounts.OthersUntouched` | internal/http_handlers/oauth_callback.go:206-443 | No login touches another address |
| `Accounts.ExtendedTwice` | internal/http_handlers/oauth_callback.go:406-436 | Asking again for the same roles changes nothing in the stored text |
| `Accounts.ExtendedParts` | internal/http_handlers/oauth_callback.go:406-436 | The stored text splits into the old roles followed by the missing ones |
| `Accounts.FindUnassigned` | internal/http_handlers/oauth_callback.go:406-413 | The loop collects the requested roles the account lacks, in order |
| `Accounts.HasAny` | internal/http_handlers/oauth_callback.go:251-259 | True exactly when a role is on the list |
| `Accounts.UserStore.Callback` | internal/http_handlers/oauth_callback.go:206-443 | The handler after its lookup, with its loops and storage faults, leaves exactly the specified outcome and table, even if what it read is out of date |
| `Accounts.UserStore.SignIn` | internal/http_handlers/oauth_callback.go:315-443 | The same for the replace and link branches, in which a refused role may follow the deletion |
| `Methods.TestsAgree` | internal/http_handlers/oauth_callback.go:396 | On lists in which no part holds a provider's name but its own, the substring test and the exact one agree |
| `Methods.StoredIsClear` | internal/service/scim/scim.go:337 | Every declared method, and the one of provisioned accounts, is such a part |
| `Methods.StoredListIsClear` | internal/constants/auth_methods.go:3-47 | So lists of them are clear |
| `Methods.NamesAreApart` | internal/constants/auth_methods.go:3-47 | No declared method name contains a provider's name but that provider itself |
| `Methods.ContainsInPart` | internal/http_handlers/oauth_callback.go:396 | A text without commas occurs in a list exactly when it occurs in one of its parts |
| `Methods.LinkedOwns` | internal/http_handlers/oauth_callback.go:393-399 | For any stored text: no method is lost, linking twice is linking once, and a login leaves the provider an owner if and only if it was one or its name occurs nowhere in the text |
| `Methods.LinkedClear` | internal/http_handlers/oauth_callback.go:393-399 | On clear lists it always is one, and the list stays clear |
| `Methods.SubstringMisleads` | internal/http_handlers/oauth_callback.go:396 | A stored text that holds a provider's name within a longer word is taken for linked, and the provider owns nothing |
| `Methods.SignupMethodsContain` | internal/http_handlers/oauth_callback.go:633-640 | The loop decides whole-name membership |
| `MetadataCache.CacheSafety` | internal/clientmetadata/clientmetadata.go:168-216 | Under interleaved calls the cache has at most 512 entries, each under its own validated client_id, and every document handed out had been fetched before, within a lifetime of one minute to one hour |
| `MetadataCache.CacheTransparent` | internal/clientmetadata/clientmetadata.go:168-216 | While each client serves one document, caching cannot be told from fetching |
| `MetadataCache.LifetimeExact` | internal/clientmetadata/clientmetadata.go:336-355 | The lifetime is the clamp of the last valid max-age if and only if the 64-bit product fits or wraps to an hour or more |
| `MetadataCache.TTLExact` | internal/clientmetadata/clientmetadata.go:336-355 | The same for one number of seconds, with the clamp spelled out |
| `MetadataCache.TTLWraps` | internal/clientmetadata/clientmetadata.go:336-355 | A concrete max-age that asks for an hour and gets a minute |
| `MetadataCache.CacheTTL` | internal/clientmetadata/clientmetadata.go:336-355 | The loop over directives computes the lifetime of the last valid one |
| `MetadataCache.MaxAgeExact` | internal/clientmetadata/clientmetadata.go:336-347 | A directive carries a max-age if and only if, trimmed and lowered, it is that word and a positive numeral that fits |
| `MetadataCache.LastMaxAgeCounts` | internal/clientmetadata/clientmetadata.go:336-347 | The last directive that carries one counts |
| `MetadataCache.ResolvableExactly` | internal/clientmetadata/clientmetadata.go:97-189 | Which identifiers are looked up, part by part |
| `MetadataCache.DocumentExactly` | internal/clientmetadata/clientmetadata.go:287-330 | Which documents are valid, down to the loopback hosts |
| `MetadataCache.StoredFound` | internal/clientmetadata/clientmetadata.go:199-216 | A stored document is found up to its expiry and not after; the others as before, unless the cache was full |
| `MetadataCache.Lifetime` | internal/clientmetadata/clientmetadata.go:336-355 | Between one minute and one hour for every header, wrapped or not |
| `MetadataCache.ValidateDocument` | internal/clientmetadata/clientmetadata.go:287-330 | Accepts exactly the valid documents |
| `MetadataCache.Provider.Store` | internal/clientmetadata/clientmetadata.go:209-216 | Clears a full cache, then stores, keeping the cache valid |
| `MetadataCache.Provider.Resolve` | internal/clientmetadata/clientmetadata.go:168-197 | Every case of a call: refused, cached, fetched, not fetched; only valid documents are returned or kept |
| `QueryLimits.WalkSelectionSet` | internal/http_handlers/graphql.go:136-165 | One pass computes depth and alias count of the fully expanded tree, and terminates on acyclic fragments |
| `QueryLimits.LimitsMeaning` | internal/http_handlers/graphql.go:103-134 | The depth is the length of a longest path of fields and the count is the number of aliased positions |
| `QueryLimits.CountPositions` | internal/http_handlers/graphql.go:136-165 | The alias sum is the size of the set of aliased positions |
| `QueryLimits.InliningUnseen` | internal/http_handlers/graphql.go:150-163 | Replacing every fragment by its contents changes neither measure |
| `QueryLimits.MutateOperationContext` | internal/http_handlers/graphql.go:103-134 | An operation is accepted exactly when it is within both limits |

## Left out

- Accounts.UserStore.Callback: the lookups, the deletion and the writes after the first read of one callback are one step.
- Accounts.UserStore.SignIn: the same.
- Accounts.SelectsOnlyItsOwn: speaks of the row that was read; what is stored by then is the matter of StoredKeptExactly.
- Accounts.RolesGrowSafely: speaks of the row that was read, in the same way.
- Accounts.MethodsGrowSafely: speaks of the row that was read, in the same way.
- Accounts.DestroysOnlySquatters: a lookup that answers without an error is taken to tell the truth, and stored ids are not empty, as for an empty id the source looks nothing up.
- Accounts.AccountsSound: says that a protected role was once given, not that one taken away stays away, which is false (StaleReadRestoresRole) and holds of the runs of UpToDateRunKeeps; other parts of the server appear as steps that register, confirm, set roles, set methods, revoke and remove; profile updates that change an address are not among them.
- LoginFlow.LoginServer.OAuthLogin: the Twitter PKCE verifier is written, but the provider exchange that reads it is not modelled.
- Bridge.BridgeFaithful: the resource does not cross the bridge in the source either.
- Response.DeliveredExactly: a client is taken to parse the query or the fragment as url.ParseQuery does; and net/http's Redirect cleans the path of a relative location, so with the default target `/app` in fragment mode a state with `//`, `/./` or `/../` is altered after the text of this model is built.
- Response.BuildResponse: the same cleaning of the default target is not modelled.
- Endpoint.AuthorizeServer.Handle: the wording of errors, refresh tokens and the expiry of stored entries are not modelled.
- Sessions.AuthTimeIsLoginTime: the sessions that the refresh grant of the token endpoint mints are not among the steps; sealing and opening session tokens is a parameter, and minted tokens are fresh texts of the token alphabet.
- SessionValue.VerifyExact: for raw values over the base64url alphabet and the dot, which is what tokens are made of.
- ResponseType.SupportedResponseTypeSet: white space and letter case are those of ASCII; Go also splits at Unicode spaces and lowers two letters outside ASCII to ASCII ones.
- ResponseType.OnlyComponentsMatter: spacing and case of ASCII only, for the same reason.
- ResponseType.FieldsSpaced: white space of ASCII only, here and for TrimSpace everywhere.
- QueryLimits.WalkSelectionSet: fragment definitions are acyclic, which validation guarantees before the walk; on cyclic ones the source would not return.
- MetadataCache.Provider.Resolve: a call with nothing in between; CacheSafety interleaves calls.
- JSON encoding of stored records: they are kept as records, and a text that does not decode is a case of its own.
- url.Parse is a parameter: a partial function to components.
- JWT, AES-GCM, SHA-256, random numbers and clocks: parameters.
- HTTP plumbing: headers, templates, content-security policies, metrics, audit events, logging.
- Redeem.TokenServer.RedeemCode: which error a refused request is told, and the tokens minted for one that is not, are not modelled.
- The provider fetchers, the MFA gate, client authentication and the other grants of the token endpoint: only their outcomes appear.
- The delegated-scope table, configuration checks and the other GraphQL middlewares: they would add easy members only.
