# Helpdesk API: a Dafny model of its business rules

The system is a ticket helpdesk back end. Clients of a company open tickets,
and support staff triage, assign and close them. Both sides discuss a ticket
in comments, and support may mark a comment internal. Support also manages
companies and attaches users to them. Users register and log in.

This project models the rules the request handlers enforce:

- who may do what;
- which inputs are refused, with which status and message, and in which order;
- what is written to the store;
- what a listing returns.

The store is the class `Store.Db`. It holds four tables:

- users and companies, as maps keyed by id;
- tickets and comments, as sequences in creation order.

A logical `clock` stamps `createdAt`. `Db.Valid()` is the invariant every
handler keeps:

- primary keys are unique;
- emails are unique;
- no two companies share a non-null cnpj;
- rows are ordered by creation stamp.

Each write to a table is a `Db` method that keeps this invariant. The
handlers are methods that take the store. Each one states four things: every
error reply and the exact condition that triggers it; that a request meeting
none of those conditions succeeds; that an error changes nothing; and the new
state on success. Where a handler makes a decision that
can be stated on its own (the status synonyms, the edit of a ticket, the
company update, the comment flag), that decision is a function with its own
contract and lemmas.

| module | file | models |
|---|---|---|
| `Common` | common.dfy | request fields as JSON delivers them, HTTP replies, decimal rendering of a count |
| `Seqs` | seqs.dfy | filtering and reversing the rows a query returns, with order preservation |
| `Text` | text.dfy | `trim`, `toLowerCase` and `includes` over ASCII |
| `Store` | store.dfy | records, enumerations, the store and its invariant |
| `RoleMiddleware` | role_middleware.dfy | `allow(roles)` |
| `TicketStatus` | ticket_status.dfy | `normalizeStatus`, as written and corrected |
| `TicketController` | ticket_controller.dfy | the ticket handlers |
| `CommentController` | comment_controller.dfy | the comment handlers |
| `CompanyController` | company_controller.dfy | the company handlers |
| `AuthController` | auth_controller.dfy | `register` and `login` |

## Model

| member | source | states |
|---|---|---|
| RoleMiddleware.Allow | src/middlewares/roleMiddleware.js:1-4 | the request goes on exactly when its role claim is one of the listed roles; otherwise the answer is HTTP 403 with error `Forbidden` |
| RoleMiddleware.AllowNoneDeniesAll | src/middlewares/roleMiddleware.js:2 | an empty role list refuses every request |
| RoleMiddleware.AllowOnlyReadsRole | src/middlewares/roleMiddleware.js:2 | two requests with the same role claim get the same decision |
| RoleMiddleware.SupportGateAgrees | src/middlewares/roleMiddleware.js:2 | `allow(['support'])` passes exactly the requests the handlers' own support check passes |
| Store.ParseRoleInverse | src/controllers/authController.js:64 | a role string is accepted exactly when it is the name of one of the two roles |
| Store.ParsePriorityInverse | src/controllers/ticketController.js:118-128 | a priority string is accepted exactly when it names one of low, medium, high |
| Store.ParseTypeInverse | src/controllers/ticketController.js:131-141 | a type string is accepted exactly when it names one of the four ticket types |
| Store.Find | src/controllers/ticketController.js:269 | `findByPk` and `findOne` on the uuid: a found position holds a row with that id; none found means no row has it |
| Store.TicketsAppend | src/controllers/ticketController.js:62-69 | inserting a ticket with a fresh id under the current clock keeps ids unique and rows in creation order |
| Store.TicketsReplace | src/controllers/ticketController.js:326-327 | saving a ticket under its own id and stamp keeps the table valid |
| Store.CommentsAppend | src/controllers/ticketCommentController.js:30-35 | inserting a comment with a fresh id keeps the comment table valid |
| Store.CommentsReplace | src/controllers/ticketCommentController.js:130-131 | saving a comment under its own id and stamp keeps the comment table valid |
| Store.CommentsRemove | src/controllers/ticketCommentController.js:162 | deleting a comment keeps the others valid and in order |
| Store.Db.InsertTicket | src/controllers/ticketController.js:62-69 | the new ticket goes last and the clock advances; the store stays valid |
| Store.Db.SaveTicket | src/controllers/ticketController.js:326-327 | exactly the row at that position is overwritten; the store stays valid |
| Store.Db.InsertCompany | src/controllers/companyController.js:27-30 | a company with a fresh id and an unheld cnpj is added; the store stays valid |
| Store.Db.SaveCompany | src/controllers/companyController.js:115-118 | the company row is overwritten; a cnpj no other company holds keeps cnpjs unique |
| Store.Db.DeleteCompany | src/controllers/companyController.js:148 | exactly that company is removed |
| Store.Db.InsertUser | src/controllers/authController.js:74-79 | a user with a fresh id and an unheld email is added; emails stay unique |
| Store.Db.SaveUser | src/controllers/companyController.js:188-189 | the user row is overwritten with its email unchanged; emails stay unique |
| Store.Db.InsertComment | src/controllers/ticketCommentController.js:30-35 | the new comment goes last and the clock advances |
| Store.Db.SaveComment | src/controllers/ticketCommentController.js:130-131 | exactly the comment at that position is overwritten |
| Store.Db.DeleteComment | src/controllers/ticketCommentController.js:162 | exactly the comment at that position is removed; the others keep their order |
| Common.NatToString | src/controllers/companyController.js:144 | a count is rendered as a non-empty string of decimal digits |
| Common.NatToStringRoundTrip | src/controllers/companyController.js:144 | reading the rendered digits back gives the count |
| Seqs.Filter | src/controllers/ticketController.js:188-196 | the kept rows are exactly the rows of the input the predicate accepts, and there are no more of them than input rows |
| Seqs.FilterOrdered | src/controllers/ticketCommentController.js:70-81 | filtering keeps the relative order of the rows it keeps |
| Seqs.Reverse | src/controllers/ticketController.js:173 | the newest-first listing is the creation-order listing read backwards |
| Seqs.ReverseMembers | src/controllers/ticketController.js:173 | reversing keeps exactly the same rows |
| Seqs.ReverseOrdered | src/controllers/ticketController.js:173 | rows in ascending creation order come out in descending order |
| Text.TrimStartSpec | src/controllers/ticketController.js:10 | the leading trim removes a run of whitespace from the front and stops at the first other character |
| Text.TrimEndSpec | src/controllers/ticketController.js:10 | the trailing trim removes a run of whitespace from the back and stops at the last other character |
| Text.TrimSpec | src/controllers/ticketCommentController.js:12 | the trimmed string occurs in the input, has no whitespace at either end, and is empty exactly when the input is all whitespace |
| Text.TrimEmptyIff | src/controllers/ticketCommentController.js:12 | `content.trim() === ''` holds exactly when the content is all whitespace |
| Text.TrimmedFixed | src/controllers/ticketController.js:10 | a string with no whitespace at either end is its own trim |
| Text.TrimStartSkips | src/controllers/ticketController.js:10 | a leading whitespace character does not change the trim |
| Text.TrimIdempotent | src/controllers/ticketCommentController.js:31 | trimming twice is trimming once |
| Text.Lower | src/controllers/ticketController.js:10 | lower-casing keeps the length and maps each character through the ASCII case map |
| Text.LowerFixed | src/controllers/ticketController.js:10 | a string with no capital letter is its own lower case |
| Text.LowerNormal | src/controllers/ticketController.js:10 | a lower-cased string has no capital letter, and lower-casing is idempotent |
| Text.TrimLowerCommute | src/controllers/ticketController.js:10 | trimming then lower-casing equals lower-casing then trimming |
| Text.ContainsIff | src/controllers/ticketController.js:191-193 | `includes` holds exactly when the term occurs at some position |
| Text.ContainsSpliced | src/controllers/ticketController.js:191-193 | a string contains any text spliced into it |
| Text.Utf16Length | src/controllers/authController.js:59 | `password.length` counts UTF-16 code units: at least one and at most two per character |
| Text.Utf16LengthBmp | src/controllers/authController.js:59 | for text inside the Basic Multilingual Plane, ASCII included, the length is the number of characters |
| Text.Utf16LengthEmoji | src/controllers/authController.js:59 | three emoji outside the Basic Multilingual Plane already have length 6 |
| TicketStatus.TableLookup | src/controllers/ticketController.js:13-27 | the synonym table yields a status only for a spelling that is one of its keys, and that status is the key's value; no key means no status |
| TicketStatus.TableLookupAt | src/controllers/ticketController.js:13-27 | the first entry with a key is the one the lookup finds |
| TicketStatus.NormalizeMissing | src/controllers/ticketController.js:7 | the result is null exactly for an absent, null or empty status |
| TicketStatus.NormalizeGiven | src/controllers/ticketController.js:10-39 | a given status is trimmed and lower-cased, then mapped through the synonym table, or refused when the table lacks it |
| TicketStatus.FallbackUnreachable | src/controllers/ticketController.js:32-36 | every already-normalized status is itself a key of the table, so the fallback never decides anything |
| TicketStatus.OpenIsAKey | src/controllers/ticketController.js:14 | `open` maps to open |
| TicketStatus.InProgressIsAKey | src/controllers/ticketController.js:15 | `in_progress` maps to in progress |
| TicketStatus.ClosedIsAKey | src/controllers/ticketController.js:19 | `closed` maps to closed |
| TicketStatus.InvalidMessageNamesStatuses | src/controllers/ticketController.js:39 | the refusal message names each of open, in_progress and closed |
| TicketStatus.ListNamesStatus | src/controllers/ticketController.js:33-39 | the joined list of valid statuses contains each of them |
| TicketStatus.NormalizeIdempotent | src/controllers/ticketController.js:6-40 | normalizing the name of a normalized status gives that status again |
| TicketStatus.NameNormalizes | src/controllers/ticketController.js:6-40 | each stored status's name normalizes to that status |
| TicketStatus.CleanName | src/controllers/ticketController.js:10 | the status names are unchanged by trimming and lower-casing |
| TicketStatus.CleanFixed | src/controllers/ticketController.js:10 | a spelling without capitals or surrounding whitespace is already clean |
| TicketStatus.LookupName | src/controllers/ticketController.js:13-36 | the lookup maps each status name to its status |
| TicketStatus.NormalizeIgnoresCase | src/controllers/ticketController.js:10 | a spelling and its lower case are accepted alike and map to the same status |
| TicketStatus.SameCleanSameOutcome | src/controllers/ticketController.js:10-39 | two spellings that clean up alike are accepted alike and map to the same status |
| TicketStatus.PaddingIgnored | src/controllers/ticketController.js:10 | a leading whitespace character does not change acceptance or the status, for every spelling |
| TicketStatus.SynonymAccepted | src/controllers/ticketController.js:13-30 | every spelling of the synonym table is accepted and mapped to the status the table gives it |
| TicketStatus.AcceptedIffFound | src/controllers/ticketController.js:7-39 | a spelling is accepted exactly when the lookup finds its cleaned form, and then as the status found |
| TicketStatus.EmptyNotFound | src/controllers/ticketController.js:13-36 | the empty spelling is neither a key of the table nor a valid status |
| TicketStatus.AcceptedWhenFound | src/controllers/ticketController.js:26-30 | a spelling the lookup finds is accepted with the status found |
| TicketStatus.TableKeyFound | src/controllers/ticketController.js:13-27 | the lookup finds every key of the table with its own value |
| TicketStatus.TableKeyClean | src/controllers/ticketController.js:13-23 | every key of the table is already trimmed and lower case |
| TicketStatus.TableKeysDistinct | src/controllers/ticketController.js:13-23 | no key of the table appears twice |
| TicketStatus.RefusedWhenNotFound | src/controllers/ticketController.js:38-39 | a non-empty spelling the lookup does not find is refused |
| TicketStatus.ConstructorEscapes | src/controllers/ticketController.js:26-30 | as written, `constructor` returns an inherited object member instead of being refused; the corrected lookup refuses it |
| TicketStatus.ConstructorClean | src/controllers/ticketController.js:10 | `constructor` is unchanged by cleaning |
| TicketStatus.AsWrittenInherited | src/controllers/ticketController.js:26-30 | as written, a cleaned spelling that is not a table key but is an `Object.prototype` member returns that member |
| TicketStatus.ConstructorNotAKey | src/controllers/ticketController.js:13-23 | `constructor` is neither a table key nor a valid status |
| TicketStatus.ConstructorNotInTable | src/controllers/ticketController.js:13-23 | no entry of the table has the key `constructor` |
| TicketStatus.OnlyLowerCaseKeysEscape | src/controllers/ticketController.js:10-26 | only `constructor` and `__proto__` can reach the inherited member, whatever the input's case and padding |
| TicketStatus.InheritedLowerCaseKeys | src/controllers/ticketController.js:26 | among the inherited member names, only those two are all lower case |
| TicketStatus.AsWrittenAgrees | src/controllers/ticketController.js:6-40 | on every other input, the lookup as written and the corrected one agree in outcome and status |
| TicketController.OpenTicket | src/controllers/ticketController.js:46-69 | 403 for a role outside client and support; 400 for a missing title or description, or a given type outside the four; 500 for a priority the table refuses; otherwise the new ticket is open, unassigned, defaults to medium and technical support, and belongs to the requester and its company |
| TicketController.Create | src/controllers/ticketController.js:43-76 | the reply is that decision; a created ticket is appended to the table and nothing changes on an error |
| TicketController.BuildWhere | src/controllers/ticketController.js:86-152 | an unknown status, priority or type is refused with 400 before any query; otherwise the clause selects exactly the tickets the listing rules describe |
| TicketController.Index | src/controllers/ticketController.js:78-201 | the listing has exactly the stored tickets the requester may see that pass every filter and the search, newest first, and `count` is its length; a client only ever sees its company's tickets; the assignee filter is for support only, and `null`/`unassigned` mean no assignee |
| TicketController.WhereMeansListed | src/controllers/ticketController.js:86-152 | the clause built field by field selects the same tickets as the rules stated over the query |
| TicketController.SearchFindsTitle | src/controllers/ticketController.js:188-196 | a ticket whose title contains the term, in any letter case, is kept by the search |
| TicketController.Show | src/controllers/ticketController.js:228-262 | 404 exactly when no ticket has the id; 403 exactly when a client asks for another company's ticket; otherwise the stored ticket |
| TicketController.Edited | src/controllers/ticketController.js:284-290 | each field given with a non-empty value takes that value and every other field keeps its own; id, owner, company, assignee and stamp never change; the table refuses a priority or type outside its enumeration |
| TicketController.EmptyEditChangesNothing | src/controllers/ticketController.js:284-288 | an edit with no field given leaves the ticket as it is |
| TicketController.EditIdempotent | src/controllers/ticketController.js:284-288 | applying the same edit twice is applying it once |
| TicketController.Update | src/controllers/ticketController.js:264-297 | 404 for an unknown ticket; 400 with the status message for a bad status, before anything is written; 500 for a refused priority or type; otherwise exactly that ticket is replaced by its edit |
| TicketController.UpdateStatus | src/controllers/ticketController.js:299-327 | 403 unless support; 400 `Status is required` for a missing status and the status message for an unknown one; 404 for an unknown ticket; otherwise only the status changes, from any current status |
| TicketController.AssignedStatus | src/controllers/ticketController.js:373-382 | an assigned ticket has the new assignee, is never open, and is closed exactly when it was |
| TicketController.UnassignedStatus | src/controllers/ticketController.js:422-427 | an unassigned ticket has no assignee, is never in progress, and is closed exactly when it was |
| TicketController.UnassignUndoesAssign | src/controllers/ticketController.js:373-427 | releasing a ticket just taken gives what releasing it directly gives, whatever its status; an open unassigned ticket comes back unchanged |
| TicketController.AssignKeepsContent | src/controllers/ticketController.js:373-427 | assigning and unassigning change nothing but the assignee and the status |
| TicketController.AssignToSupport | src/controllers/ticketController.js:349-384 | 403 unless support; 404 for an unknown ticket, then 404 for an unknown named user; 400 when the named user is not support; otherwise the ticket is assigned to the named user, or to the requester when none is named |
| TicketController.UnassignTicket | src/controllers/ticketController.js:408-429 | 403 unless support; 404 for an unknown ticket; otherwise the ticket is unassigned |
| TicketController.MyTickets | src/controllers/ticketController.js:446-471 | 403 unless support; otherwise exactly the tickets assigned to the requester, newest first, with their count |
| CommentController.InternalFlag | src/controllers/ticketCommentController.js:9-28 | a comment is internal only if the requester is support and asked for it; a client's request for it is dropped |
| CommentController.Create | src/controllers/ticketCommentController.js:6-46 | 400 for missing or blank content, checked before the ticket lookup; 404 for an unknown ticket; 403 for a client of another company; otherwise a comment with the trimmed content by the requester is appended |
| CommentController.Index | src/controllers/ticketCommentController.js:54-89 | 404 for an unknown ticket; 403 for a client of another company; otherwise exactly the ticket's comments the requester may see, oldest first, where a client never sees an internal comment |
| CommentController.SupportSeesAll | src/controllers/ticketCommentController.js:70-77 | support is shown every comment of the ticket, internal or not |
| CommentController.FindOnTicket | src/controllers/ticketCommentController.js:108-118 | the comment found has both the requested id and the requested ticket; none found means no comment has both |
| CommentController.Update | src/controllers/ticketCommentController.js:97-133 | 400 for blank content first; 404 unless the comment is on that ticket; 403 unless support or the author; otherwise only the content changes, to the trimmed value |
| CommentController.StoredContentTrimmed | src/controllers/ticketCommentController.js:31 | stored content neither starts nor ends with whitespace, and trimming it again changes nothing |
| CommentController.Destroy | src/controllers/ticketCommentController.js:141-164 | 404 unless the comment is on that ticket; 403 unless support or the author; otherwise exactly that comment is removed and all others remain in order |
| CommentController.RemovedExactly | src/controllers/ticketCommentController.js:162 | removing one row of a table with unique ids leaves exactly the rows with other ids |
| CompanyController.Create | src/controllers/companyController.js:6-32 | 403 unless support, before anything else; 400 for a missing name or a cnpj a company already holds; otherwise the company is added, with no cnpj when none is given |
| CompanyController.Index | src/controllers/companyController.js:40-54 | 403 unless support; otherwise exactly the stored companies |
| CompanyController.Show | src/controllers/companyController.js:63-82 | a client asking for any company but its own gets 403, even for an unknown id; otherwise 404 for an unknown id, or the company |
| CompanyController.Updated | src/controllers/companyController.js:115-116 | a non-empty name replaces the old one; a given cnpj replaces the old one, where null and the empty string clear it; an absent cnpj keeps it |
| CompanyController.UpdateKeepsCnpjUnique | src/controllers/companyController.js:103-116 | an update that passes the cnpj check keeps every non-null cnpj unique |
| CompanyController.Update | src/controllers/companyController.js:91-119 | 403 unless support; 404 for an unknown company; 400 for a cnpj another company holds, with nothing changed; otherwise exactly that company is updated |
| CompanyController.UpdatedAsWritten | src/controllers/companyController.js:115-116 | as written, a given string cnpj is stored as it is, the empty string included |
| CompanyController.EmptyCnpjDuplicated | src/controllers/companyController.js:103-116 | as written, two companies updated with an empty cnpj both pass the check and end up sharing it |
| CompanyController.AsWrittenAgreesOffEmpty | src/controllers/companyController.js:115-116 | for every cnpj but the empty string, the update as written and the corrected one agree |
| CompanyController.Destroy | src/controllers/companyController.js:128-149 | 403 unless support; 404 for an unknown company; 400 naming the number of users while any user belongs to it; otherwise exactly that company is removed |
| CompanyController.AssignUser | src/controllers/companyController.js:158-199 | 403 unless support; 400 for a missing user id; 404 for an unknown company, then for an unknown user; otherwise only that user's company changes, and no ticket or company changes |
| AuthController.RequestedRole | src/controllers/authController.js:64-78 | a given role must be `client` or `support`; a missing role means client |
| AuthController.Register | src/controllers/authController.js:51-86 | 400 for a missing name, email or password, a password under 6 UTF-16 code units (the JavaScript length), an unknown role, or an email already registered, with nothing added; otherwise the user is added with the hash of the password and no company, and the reply carries only id, email, name and role |
| AuthController.RegisterKeepsEmailsUnique | src/controllers/authController.js:68-79 | adding a user whose email nobody holds keeps emails unique, and the new user is found under that email |
| AuthController.Login | src/controllers/authController.js:7-44 | 400 for a missing email or password; 401 with the same message for an unknown email and for a wrong password; otherwise the token is signed over the user's id, email, role and company, and the reply carries the same user |

## Left out

- Persistence is not modelled: SQL, `include` joins, `sync`, and database failures other than the enumeration refusals. Each table is a map or a sequence in the store.
- Request values that are not strings are not modelled. Examples are a number as `content`, which ends in 500, and a number as `status`, which the status normalisation turns into a string.
- The logical clock gives every row a distinct, increasing stamp. Real `createdAt` values can be equal, and then the `ORDER BY` of a listing leaves the order among those rows open; the model fixes it to insertion order.
- Response shapes are simplified. A handler's reply carries the record it returns. The extra fields (`filters`, `debug`, joined authors, the status message of `updateStatus`) are not modelled.
- `console.log` output and the `details`/`stack` fields of 500 replies are not modelled.
- bcrypt hashing and comparison and JWT signing are parameters of `Register` and `Login` (`hash`, `matches`, `sign`). The JWT secret and expiry are not modelled.
- The authentication middleware that decodes the token into the requester's id, role and company is not part of this model. The requester is an input.
- The debug and test endpoints of the ticket controller, route wiring and schema migrations are not modelled.
- `trim` and `toLowerCase` are modelled over ASCII only.
- Concurrent requests are not modelled.
- Deleting a company does not model what the database does to that company's tickets.
- CompanyController.Index: does not model the newest-first order of the listing. Companies are a map in the store, and the reply is the set of its rows.
- AuthController.Login: with unique emails, the user found is the only one with that email. The model picks it by that property rather than by a database lookup.
- CommentController.Create: `isInternal` is modelled as an optional boolean. A JSON value of another type is not modelled.

## Findings

| source | as written | input that shows it | evidently intended | confidence | as-written member | corrected member |
|---|---|---|---|---|---|---|
| src/controllers/ticketController.js:26-30 | `statusMap[cleanStatus]` reads a property of a plain object literal, so inherited `Object.prototype` members are found too | status `"constructor"` (any case or padding): the function returns `Object`'s constructor function instead of throwing, and the handlers use it as a status | only the nine keys of the table are accepted; everything else is refused with 400 | high (not executed) | TicketStatus.ConstructorEscapes | TicketStatus.RefusedWhenNotFound |
| src/controllers/companyController.js:103-116 | the uniqueness check runs only for a non-empty cnpj, but any defined cnpj is stored, the empty string included | two companies without a cnpj, each updated with `cnpj: ""`: both pass the check and both hold `""` | the empty cnpj means no cnpj, as in `create` (`cnpj \|\| null`), so non-null cnpjs stay unique | medium (not executed) | CompanyController.EmptyCnpjDuplicated | CompanyController.UpdateKeepsCnpjUnique |

The handlers use the corrected definitions. `TicketStatus.NormalizeStatus`
refuses every spelling the table lacks. `CompanyController.Updated` stores an
empty cnpj as none.
