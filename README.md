# Insurance portal: availability editor, auth forms and backend services

This project models the logic of an insurance portal's agent frontend and its
two backend services.

- **Availability editor** (`Availability.js`). It holds one agent's
  availability record: agent id, day of week, and an ordered list of time
  slots. Each slot has a start time, an end time and an active flag. Event
  handlers rewrite the record. "Save" posts the record as it is.
- **Auth forms** (`Register.js`, `ResetPassword.js`, `ForgotPassword.js`,
  `Login.js`). Each form checks its input with an ordered chain of rules; the
  first failing rule sets the shown error and stops submission. Editing a
  field replaces that field and clears the error. A failed request shows the
  server's message, or the page's fixed fallback when there is none.
- **Availability service** (`AgentAvailabilityService.java`). It upserts the
  slots of an `(agentId, dayOfWeek)` pair into the `agent_availabilities`
  collection and lists an agent's documents.
- **User service** (`UserService.java`). It stores registered users and logs
  users in by email lookup and password comparison.

Modules, one per source file, plus shared helpers:

- `Availability` (availability.dfy): Availability.js: record functions, the event trace `Run`, and the `AvailabilityEditor` class (the state cell).
- `Register`, `ResetPassword`, `ForgotPassword`, `Login` (register.dfy, reset_password.dfy, forgot_password.dfy, login.dfy): the form pages: pure validators and field updates, and a page class whose fields are the page's state cells.
- `AgentAvailabilityService` (agent_availability_service.dfy): the collection as a value `Table`, the repository queries and `save` as functions, the upsert as a function, and the service class.
- `UserService` (user_service.dfy): `findByEmail`, `login` and the service class with `register`.
- `Forms` (forms.dfy): server-message-or-fallback, and the check chain `FirstFailure` used as the reference meaning of the validators.
- `Text` (text.dfy): JavaScript `trim()` with ECMAScript's whitespace set.
- `Seqs`, `Wrappers`, `TimeSlots` (seqs.dfy, wrappers.dfy, time_slots.dfy): first-match search and filter, Option/Result, the shared slot datatype.

A page submission awaits a request. Each page's submit handler is therefore
split in two. `Submit` runs up to the request: it validates, sets `loading`
and returns the request body, or `None` when nothing is sent. `Complete`
takes the server's response and runs the `catch`/`finally` part.

`Availability.js:46-55` posts the record with no validation and no guard
against double submission. The Save button is never disabled and the page
keeps no loading state, so every click sends a request. The model adds
neither: `AvailabilityEditor.Submit` has no precondition and checks nothing.

## Model

| member | source | states |
|---|---|---|
| `Availability.Initial` | agent-frontend/src/components/agent/Availability.js:5-11 | the initial record has agent id "", day "Monday" and exactly one slot `{"", "", true}` |
| `Availability.WithStoredAgentId` | agent-frontend/src/components/agent/Availability.js:19-23 | the stored agent id is taken only when present and non-empty; day and slots are unchanged |
| `Availability.WithDay` | agent-frontend/src/components/agent/Availability.js:61-65 | only the day changes and it is a selector value; agent id and slots are unchanged |
| `Availability.EditSlot` | agent-frontend/src/components/agent/Availability.js:28 | the edited field takes the value and the slot's other two fields keep theirs |
| `Availability.WithSlotEdit` | agent-frontend/src/components/agent/Availability.js:26-34 | the slot count is kept, slot `index` gets the edit, and every other slot, the agent and the day are unchanged; the index must name an existing slot |
| `Availability.WithAddedSlot` | agent-frontend/src/components/agent/Availability.js:36-44 | the slot count grows by one, earlier slots are unchanged, the new last slot is the default, agent and day are unchanged |
| `Availability.Step` | agent-frontend/src/components/agent/Availability.js:19-74 | one event: only an add-slot event changes the slot count (by one); a slot change at an index with no slot leaves the record unchanged (the handler throws a TypeError at line 28 before setting state); only the mount effect changes the agent id; only the selector changes the day |
| `Availability.RunSlotCount` | agent-frontend/src/components/agent/Availability.js:26-44 | after any sequence of events the slot count is the starting count plus the number of add-slot events |
| `Availability.RunKeepsWeekday` | agent-frontend/src/components/agent/Availability.js:61-74 | the day stays one of Monday to Sunday whatever the events |
| `Availability.RunKeepsUntouchedSlot` | agent-frontend/src/components/agent/Availability.js:26-34 | a slot no event targets keeps its position and value |
| `Availability.RunKeepsAgentId` | agent-frontend/src/components/agent/Availability.js:19-23 | the agent id changes only through the mount effect |
| `Availability.SessionInvariant` | agent-frontend/src/components/agent/Availability.js:5-44 | from the initial record, the editor always holds at least one slot and a valid day |
| `Availability.AvailabilityEditor.constructor` | agent-frontend/src/components/agent/Availability.js:5-11 | the state cell starts at the initial record |
| `Availability.AvailabilityEditor.LoadAgentId` | agent-frontend/src/components/agent/Availability.js:19-23 | the mount effect applies `WithStoredAgentId` and keeps the day valid |
| `Availability.AvailabilityEditor.ChangeDay` | agent-frontend/src/components/agent/Availability.js:61-65 | the day change applies `WithDay` |
| `Availability.AvailabilityEditor.HandleSlotChange` | agent-frontend/src/components/agent/Availability.js:26-34 | the slot change applies `WithSlotEdit` |
| `Availability.AvailabilityEditor.AddSlot` | agent-frontend/src/components/agent/Availability.js:36-44 | the add-slot handler applies `WithAddedSlot` |
| `Availability.AvailabilityEditor.Submit` | agent-frontend/src/components/agent/Availability.js:46-55 | the request body is the record exactly as held, with no validation, and the record is not modified |
| `Text.Trim` | agent-frontend/src/components/auth/Register.js:23 | the trimmed name is empty iff the name is whitespace only; otherwise it begins and ends with non-whitespace |
| `Forms.ShownError` | agent-frontend/src/components/auth/Register.js:53 | a failure shows the server's message when present and non-empty, else the fallback; the shown error is never empty |
| `Forms.FirstFailure` | agent-frontend/src/components/auth/Register.js:22-40 | a rule chain reports nothing iff every rule passes |
| `Forms.FirstFailureIsFirst` | agent-frontend/src/components/auth/Register.js:22-40 | when rule `k` is the first to fail, its message is the one reported |
| `Forms.FirstFailureHasWitness` | agent-frontend/src/components/auth/ResetPassword.js:31-41 | any reported message belongs to a failing rule all of whose predecessors passed |
| `Register.Update` | agent-frontend/src/components/auth/Register.js:17-18 | the named field takes the value and the other three keep theirs |
| `Register.ValidateForm` | agent-frontend/src/components/auth/Register.js:22-40 | the form is valid iff the name is not blank, the email contains `@`, the password has at least 6 characters, and it equals the confirmation |
| `Register.ValidateFormIsFirstFailure` | agent-frontend/src/components/auth/Register.js:22-40 | validation equals the first failure of the rule list name, email, length, match, each with its fixed message |
| `Register.ValidateFormReportsFirstFailingRule` | agent-frontend/src/components/auth/Register.js:22-40 | the reported message is that of the first failing rule in that order |
| `Register.Payload` | agent-frontend/src/components/auth/Register.js:48-49 | the request body is name, email and password, without the confirmation |
| `Register.PayloadIgnoresConfirmation` | agent-frontend/src/components/auth/Register.js:48-49 | editing the confirmation does not change the request body |
| `Register.RegisterPage.constructor` | agent-frontend/src/components/auth/Register.js:7-14 | the form starts empty, with no error and not loading |
| `Register.RegisterPage.HandleChange` | agent-frontend/src/components/auth/Register.js:17-20 | only the named field is replaced and the error is cleared |
| `Register.RegisterPage.Submit` | agent-frontend/src/components/auth/Register.js:42-49 | an invalid form sets the first failing rule's message and sends nothing; a valid one sets loading and sends the payload, leaving the error as it was |
| `Register.RegisterPage.Complete` | agent-frontend/src/components/auth/Register.js:47-57 | a failure sets the server message or "Registration failed. Please try again."; loading is cleared either way |
| `ResetPassword.Update` | agent-frontend/src/components/auth/ResetPassword.js:26-27 | the named field takes the value and the other keeps its value |
| `ResetPassword.ValidateForm` | agent-frontend/src/components/auth/ResetPassword.js:31-41 | the form is valid iff the password has at least 6 characters and equals the confirmation; a mismatch is reported only for a long enough password |
| `ResetPassword.ValidateFormIsFirstFailure` | agent-frontend/src/components/auth/ResetPassword.js:31-41 | validation is the first failure of the rule list length, match |
| `ResetPassword.Payload` | agent-frontend/src/components/auth/ResetPassword.js:50-53 | the request body is exactly the token and the password |
| `ResetPassword.TokenPresent` | agent-frontend/src/components/auth/ResetPassword.js:20 | the token counts as absent (`!token`) exactly when it is missing (null) or the empty string |
| `ResetPassword.ResetPasswordPage.constructor` | agent-frontend/src/components/auth/ResetPassword.js:8-17 | empty form, no error or success, not loading, token assumed valid |
| `ResetPassword.ResetPasswordPage.CheckToken` | agent-frontend/src/components/auth/ResetPassword.js:19-24 | an absent or empty token marks the link invalid with "Invalid reset link. Please request a new one." |
| `ResetPassword.ResetPasswordPage.HandleChange` | agent-frontend/src/components/auth/ResetPassword.js:26-29 | only the named field is replaced and the error is cleared |
| `ResetPassword.ResetPasswordPage.Submit` | agent-frontend/src/components/auth/ResetPassword.js:43-53 | an invalid form sets the rule's message and sends nothing; a valid one sets loading and sends `{token, password}` |
| `ResetPassword.ResetPasswordPage.Complete` | agent-frontend/src/components/auth/ResetPassword.js:54-66 | success sets the success message and empties both fields; failure sets the server message or the fallback; loading is cleared |
| `ForgotPassword.ValidateEmail` | agent-frontend/src/components/auth/ForgotPassword.js:18-24 | the email is accepted iff it contains `@`, else "Please enter a valid email address" |
| `ForgotPassword.ForgotPasswordPage.constructor` | agent-frontend/src/components/auth/ForgotPassword.js:7-10 | empty email, no error or success, not loading |
| `ForgotPassword.ForgotPasswordPage.HandleChange` | agent-frontend/src/components/auth/ForgotPassword.js:13-16 | the email takes the input and the error is cleared |
| `ForgotPassword.ForgotPasswordPage.Submit` | agent-frontend/src/components/auth/ForgotPassword.js:26-33 | an email without `@` sets the error and sends nothing; otherwise loading is set and the request carries the email |
| `ForgotPassword.ForgotPasswordPage.Complete` | agent-frontend/src/components/auth/ForgotPassword.js:34-46 | success sets the success message and clears the email; failure sets the server message or "Failed to send reset link. Please try again."; loading is cleared |
| `Login.Update` | agent-frontend/src/components/auth/Login.js:12-13 | the named field takes the value and the other keeps its value |
| `Login.ValidateData` | agent-frontend/src/components/auth/Login.js:21-24 | the request may be sent iff both email and password are non-empty, else "Please enter email and password" |
| `Login.LoginPage.constructor` | agent-frontend/src/components/auth/Login.js:7-9 | empty form, no error, not loading |
| `Login.LoginPage.HandleChange` | agent-frontend/src/components/auth/Login.js:12-15 | only the named field is replaced and the error is cleared |
| `Login.LoginPage.Submit` | agent-frontend/src/components/auth/Login.js:17-28 | an empty field sets the error and sends nothing; otherwise loading is set and the form is sent |
| `Login.LoginPage.Complete` | agent-frontend/src/components/auth/Login.js:28-37 | success stores the response under "user"; failure sets the server message or "Invalid credentials. Please try again." and leaves storage alone; loading is cleared |
| `AgentAvailabilityService.FindByAgentIdAndDayOfWeek` | agent-frontend/online-insurance-backend/src/java/com/insurance/service/AgentAvailabilityService.java:16 | finds nothing iff no stored document has the key; otherwise returns a stored document with the key |
| `AgentAvailabilityService.FindByAgentId` | agent-frontend/online-insurance-backend/src/java/com/insurance/service/AgentAvailabilityService.java:28-30 | returns exactly the stored documents whose agent id matches, each as often as it is stored, and no other |
| `AgentAvailabilityService.Save` | agent-frontend/online-insurance-backend/src/java/com/insurance/service/AgentAvailabilityService.java:25 | a document without id is appended under a newly issued id; one whose id is stored replaces that document in place and nothing else changes; one whose id is not stored is appended and the counter moves past it; the saved document is returned and ids stay unique |
| `AgentAvailabilityService.NewAvailability` | agent-frontend/online-insurance-backend/src/java/com/insurance/service/AgentAvailabilityService.java:18-21 | the entity built for a new key has no id, the given agent and day, `createdAt` set to the clock reading, no slots and no update time |
| `AgentAvailabilityService.Upsert` | agent-frontend/online-insurance-backend/src/java/com/insurance/service/AgentAvailabilityService.java:15-25 | the upsert keeps every document identified by a unique id |
| `AgentAvailabilityService.UpsertCreates` | agent-frontend/online-insurance-backend/src/java/com/insurance/service/AgentAvailabilityService.java:16-22 | for a new key, one document is appended with a new id, the given agent, day and slots, and `createdAt = now` |
| `AgentAvailabilityService.UpsertUpdates` | agent-frontend/online-insurance-backend/src/java/com/insurance/service/AgentAvailabilityService.java:16-24 | for an existing key, the document keeps its place, id and `createdAt`; only `timeSlots` and `updatedAt` change |
| `AgentAvailabilityService.UpsertThenFind` | agent-frontend/online-insurance-backend/src/java/com/insurance/service/AgentAvailabilityService.java:15-25 | afterwards the key's document holds exactly the given slots and the update time |
| `AgentAvailabilityService.UpsertLeavesOtherKeys` | agent-frontend/online-insurance-backend/src/java/com/insurance/service/AgentAvailabilityService.java:25 | documents of other keys are unchanged, and at most one document, with the key, is added |
| `AgentAvailabilityService.UpsertKeepsKeysUnique` | agent-frontend/online-insurance-backend/src/java/com/insurance/service/AgentAvailabilityService.java:16-25 | a collection with at most one document per key keeps that property |
| `AgentAvailabilityService.UpsertAgainAddsNothing` | agent-frontend/online-insurance-backend/src/java/com/insurance/service/AgentAvailabilityService.java:16-25 | repeating the upsert for the same key adds no document |
| `AgentAvailabilityService.TwoInsertsBreakKeysUnique` | agent-frontend/online-insurance-backend/src/java/com/insurance/service/AgentAvailabilityService.java:16-25 | two calls for a new key whose lookups both run before either save leave a well-formed collection with two documents for that key |
| `AgentAvailabilityService.AgentAvailabilityService.constructor` | agent-frontend/online-insurance-backend/src/java/com/insurance/service/AgentAvailabilityService.java:11-13 | the service starts over an empty collection |
| `AgentAvailabilityService.AgentAvailabilityService.AddOrUpdateAvailability` | agent-frontend/online-insurance-backend/src/java/com/insurance/service/AgentAvailabilityService.java:15-26 | the collection after the call and the returned document are those of `Upsert`; one document per key is kept |
| `AgentAvailabilityService.AgentAvailabilityService.GetAvailabilityByAgent` | agent-frontend/online-insurance-backend/src/java/com/insurance/service/AgentAvailabilityService.java:28-30 | returns exactly the stored documents of the agent, each as often as it is stored, and no other |
| `UserService.FindByEmail` | agent-frontend/online-insurance-backend/src/java/com/insurance/service/UserService.java:20 | finds nothing iff no stored user has the email; otherwise a stored user with it |
| `UserService.Login` | agent-frontend/online-insurance-backend/src/java/com/insurance/service/UserService.java:18-31 | an unknown email fails with "User not found" before any password check; a wrong password fails with "Invalid credentials"; success iff the stored password equals the given one, returning exactly the user `findByEmail` found |
| `UserService.FindByEmailAfterAppend` | agent-frontend/online-insurance-backend/src/java/com/insurance/service/UserService.java:15-20 | after a registration, an email already stored still finds the earlier user, and a new email finds the new user |
| `UserService.LoginAfterRegister` | agent-frontend/online-insurance-backend/src/java/com/insurance/service/UserService.java:15-30 | a user registered under a fresh email logs in with their password and gets their record; any other password is refused |
| `UserService.UserService.Register` | agent-frontend/online-insurance-backend/src/java/com/insurance/service/UserService.java:15-17 | the user is appended to the collection unchanged, with no validation |

## Left out

- Rendering (JSX, CSS), routing (`navigate`, `Link`), the `setTimeout` redirects, `alert` and `console.error`. They are presentation only.
- HTTP transport (`API.post`, axios). A request is the value `Submit` returns. A response is `Forms.Response`: success with the body's JSON text, or failure with an optional `message`. A `message` that is present but not a string is not modelled.
- The token check and redirect through `window.location` (`Availability.js:14-17`). Browser storage appears only as the stored agent id, which is a parameter of `LoadAgentId`, and as the "user" entry written by `Login.LoginPage.Complete`.
- Availability.AvailabilityEditor.HandleSlotChange: the handler writes into the slot object it shares with the previous state. The model updates a value, so that aliasing is not captured. No code reads the previous state.
- Availability.Step: a slot change at an index with no slot throws a TypeError before the state is set. The model leaves the record unchanged in that case. The page only passes indices of rendered slots.
- The `Complete` methods of the four form pages require `loading`. A response arrives only for a request that `Submit` sent. Double submission while a request is pending is not modelled; the page prevents it only by disabling the button.
- The invalid-link view that ResetPassword renders when the token is missing. Its `handleSubmit` does not check the token, so the request carries the token as read (`Option<string>`).
- JavaScript string semantics. `trim()` is modelled with ECMAScript's exact whitespace set. `.length` is the sequence length, so one character stands for one UTF-16 code unit.
- The controllers (`AgentAvailabilityController.java`, `AuthController.java`). They only pass through. `AgentAvailabilityRequest` is not part of this model.
- The Mongo repository. The collection is a sequence of documents in insertion order. ObjectIds are issued by a counter. `save` inserts a document without id and replaces by id otherwise. A key lookup returns the first match. Several matches, on which Spring Data throws, cannot arise while calls run one at a time (`KeysUnique`).
- Concurrent requests. Calls to `addOrUpdateAvailability` are modelled one at a time, starting from an empty collection. The lookup at `AgentAvailabilityService.java:16` and the save at line 25 run with no transaction and no unique index. Two interleaved calls for a new key can therefore both find nothing and both insert, leaving two documents with one key. Every later lookup of that key then hits the several-matches exception. `AgentAvailabilityService.TwoInsertsBreakKeysUnique` exhibits that state.
- `LocalDateTime.now()`. The upsert takes its two readings (lines 21 and 24) as the parameters `createdNow` and `updatedNow`.
- `User.java` and `UserRepository.java` are not part of this model. A user is the three fields the registration form sends. `register` appends and `findByEmail` returns the first match. What the real repository does with two users of one email (which `register` does not prevent) is not modelled.
- UserService.Login: null fields are not modelled. Every stored user has a name, an email and a password. `register` stores the request body without validation, so the real collection can hold a user with a null password; for that user `user.getPassword().equals(...)` at `UserService.java:26` throws NullPointerException, a third failure that the two-error `Login` does not express.
- `Agent.java` is a field-only entity that no core operation uses.
- Slot time-range and format validation. The source does not implement it.
