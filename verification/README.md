# Jet-Ai view-model layer in Dafny

Jet-Ai is an Android chat and photo-reasoning client. Its repositories wrap
Firebase Auth, Firestore and the Gemini SDK, and hand the view-models a
`Flow<Response<T>>`. The view-models turn those responses into screen state.
This project models that pure layer:

- the `Response` sum type;
- the `collectAndHandle` dispatcher;
- the state records and reducers of the sign-up, login, forgot-password,
  chat-room list, message and photo-reasoning screens;
- the photo-reasoning repository's accumulate-and-emit loop;
- the login route strings and the home tabs.

Modelling choices:

- **Finite flow run.** One run of a flow is `Responses.Emissions`: the
  responses delivered, in order, plus the exception, if any, that ends the
  collection. The run does not always mean the producer finished; see
  "Producers that never complete" below.
- **Collection as a fold.** `collectAndHandle` is `Dispatch.CollectAll`, a fold
  of three handlers over those responses.
- **Kotlin `throw` inside a handler.** A handler ends in a `Dispatch.Step`:
  `Done(state)`, or `Threw(state, exception)`. The state written before the
  throw is kept, and the rest of the collection is skipped. The enclosing
  `catch`/`finally` is then applied by each view-model.
- **External inputs as parameters.**
  - Repositories are functions from their arguments to one run. "Not called"
    is proved as "the outcome does not depend on that function".
  - `isValidEmail` is an uninterpreted predicate.
  - `hasUser` and `hasVerifiedUser` are booleans.
- **Sign-up collection.** The sign-up screen collects with `collectLatest`. Its
  block never suspends, so each element is handled completely before the next
  arrives. The model therefore folds it like a plain `collect`.
- **JVM and Kotlin runtime rules** are modelled in `KotlinRuntime`:
  - nullable values;
  - `IllegalArgumentException(cause)` taking `cause.toString()` as its message;
  - `isBlank` over the JVM whitespace set;
  - `toBoolean`;
  - `String += String?` appending `"null"`.

Each file holds one module:

| file | module | covers |
|---|---|---|
| `kotlin_runtime.dfy` | `KotlinRuntime` | the runtime rules above |
| `response.dfy` | `Responses` | `Response`, the finite run, and reference readings of a response sequence |
| `dispatch.dfy` | `Dispatch` | `collectAndHandle` and its laws |
| `models.dfy` | `Models` | the records repositories return |
| `signup.dfy` | `Registration` | sign-up view-model |
| `login.dfy` | `Login` | login view-model |
| `forgot_password.dfy` | `ForgotPassword` | forgot-password view-model |
| `chat_room.dfy` | `ChatRooms` | chat-room list view-model |
| `message.dfy` | `Messages` | message view-model |
| `photo_reasoning_repository.dfy` | `PhotoReasoningRepo` | the photo-reasoning repository |
| `photo_reasoning.dfy` | `PhotoReasoning` | the photo-reasoning UI state and view-model |
| `route.dfy` | `Routes` | routes and tabs |

## Model

| member | source | states |
|---|---|---|
| `Responses.DataOf` | app/src/main/java/hoods/com/jetai/utils/Response.kt:3-10 | for a non-nullable payload, `data` is non-null exactly for `Success`, and then it is that response's `dataSuccess` |
| `Responses.NullableDataOf` | app/src/main/java/hoods/com/jetai/utils/Response.kt:3-10 | for a nullable payload such as `AuthResult?`, `data` is non-null exactly for a `Success` whose payload is non-null, and then it is that payload |
| `Responses.ErrorOf` | app/src/main/java/hoods/com/jetai/utils/Response.kt:3-14 | `error` is null for `Loading` and `Success`; for `Error` it is the carried throwable, which may itself be null |
| `Responses.DerivedFieldsExclusive` | app/src/main/java/hoods/com/jetai/utils/Response.kt:3-15 | for a non-nullable payload, `data` and `error` are never both set, and both are null exactly for `Loading` and for an `Error` whose throwable is null |
| `Responses.NullablePayloadFields` | app/src/main/java/hoods/com/jetai/utils/Response.kt:3-15 | for a nullable payload, Kotlin's `data` is the model's `DataOf` with its two levels of null collapsed; `data` and `error` are never both set, and both are null exactly for `Loading`, an `Error` whose throwable is null, and `Success(null)` |
| `Responses.LastSettledErrorMessage` | app/src/main/java/hoods/com/jetai/authentication/login/LoginViewModel.kt:124-144 | when only `Error` writes the message, a last settled `Error` leaves its own message, and a run where nothing settled leaves the message as it was |
| `Dispatch.RecordedCollection` | app/src/main/java/hoods/com/jetai/utils/ext/Extenstions.kt:9-31 | over a whole run, the handlers receive exactly one call per element, in order: the log ends as the old log followed by one call per element. The collection throws exactly when the producer failed, and then with the producer's own exception, unchanged, after the last element |
| `Dispatch.HandlerCallsInOrder` | app/src/main/java/hoods/com/jetai/utils/ext/Extenstions.kt:16-30 | every element causes exactly one handler call, in emission order, none skipped or repeated. `Success` gives its `dataSuccess` unchanged to `stateReducer`; `Error` gives its possibly-null error to `onError`; `Loading` calls `onLoading` |
| `Dispatch.CollectAllAppend` | app/src/main/java/hoods/com/jetai/utils/ext/Extenstions.kt:16-30 | collecting `a + b` is collecting `a`, then, unless a handler threw, collecting `b` from the state `a` left |
| `Dispatch.CollectAllSnoc` | app/src/main/java/hoods/com/jetai/utils/ext/Extenstions.kt:16-30 | an extra last element is handled in the state the earlier ones left; it is ignored if one of them threw |
| `Dispatch.ThrowDiscardsRest` | app/src/main/java/hoods/com/jetai/utils/ext/Extenstions.kt:16-30 | once a handler has thrown, later elements change nothing |
| `Dispatch.NoSuccessNeverReduces` | app/src/main/java/hoods/com/jetai/utils/ext/Extenstions.kt:16-30 | a sequence without `Success` never reaches `stateReducer`: swapping the reducer changes nothing |
| `Dispatch.IgnoredLoadingIsInvisible` | app/src/main/java/hoods/com/jetai/utils/ext/Extenstions.kt:10-13 | when `onLoading` leaves the state alone, as the default one does, removing every `Loading` gives the same outcome |
| `Dispatch.NeverThrowsCompletes` | app/src/main/java/hoods/com/jetai/utils/ext/Extenstions.kt:16-30 | with handlers that never throw, collecting any sequence completes normally |
| `KotlinRuntime.IllegalArgumentCausedBy` | app/src/main/java/hoods/com/jetai/authentication/register/SignUpViewModel.kt:103 | the exception keeps its cause; its message is null exactly when the cause is null, and otherwise is the cause's `toString()` |
| `KotlinRuntime.NotBlankIsNotEmpty` | app/src/main/java/hoods/com/jetai/authentication/login/LoginViewModel.kt:90-91 | a non-blank string is non-empty, but a non-empty string can be blank (`" "`) |
| `KotlinRuntime.ToBooleanReadsBoolText` | app/src/main/java/hoods/com/jetai/navigation/JetAiNavGraph.kt:69-70 | `toBoolean` reads back what `Boolean.toString()` wrote; it ignores case; it is false for null, `""` and other words |
| `Models.DefaultChatRoom` | app/src/main/java/hoods/com/jetai/data/models/Models.kt:23-28 | a room built with the defaults is titled "New Chat" and has no owner; its id and time are the supplied ones |
| `Registration.ValidateSignUpFormMeaning` | app/src/main/java/hoods/com/jetai/authentication/register/SignUpViewModel.kt:76-79 | the form validates if and only if all five text fields are non-empty and the terms are accepted; the initial form does not validate |
| `Registration.CreateUser` | app/src/main/java/hoods/com/jetai/authentication/register/SignUpViewModel.kt:81-120 | the spinner is off at the end on every path; only the spinner, the success flag and the message change. An incomplete form gives "Fields Can not be empty". Otherwise, mismatched passwords give "Password do not Match" |
| `Registration.RejectedFormSkipsRepository` | app/src/main/java/hoods/com/jetai/authentication/register/SignUpViewModel.kt:83-85 | a form failing either check gives the same result whatever the repository would emit, with the message of the first failing check |
| `Registration.AcceptedFormCallsRepository` | app/src/main/java/hoods/com/jetai/authentication/register/SignUpViewModel.kt:86-90 | a form passing both checks depends only on what the repository emits for the form's own email and password; collection starts with the spinner on and no message |
| `Registration.FieldsKeptByCollection` | app/src/main/java/hoods/com/jetai/authentication/register/SignUpViewModel.kt:90-107 | handling the sign-up responses writes only the spinner and the success flag |
| `Registration.ErrorFreeResponses` | app/src/main/java/hoods/com/jetai/authentication/register/SignUpViewModel.kt:91-99 | with no `Error` the collection completes; the success flag ends set exactly when it was set before or a `Success` arrived; while the never-completing flow is live, the spinner is on exactly when the last response was `Loading` (a `Success` switches it off) |
| `Registration.FirstErrorEndsSignUp` | app/src/main/java/hoods/com/jetai/authentication/register/SignUpViewModel.kt:101-118 | the first `Error` clears the success flag, stops the spinner and sets the message to the error's `toString()` (null for a null error); later responses are ignored |
| `Registration.ErrorFreeSignUp` | app/src/main/java/hoods/com/jetai/authentication/register/SignUpViewModel.kt:90-118 | for a valid form and no `Error`: the success flag ends set exactly when it was already set before this attempt or some `Success` arrived; the message is the producer's exception message, or null; the spinner is off and no other field changes |
| `Registration.VerificationEmailSent` | app/src/main/java/hoods/com/jetai/authentication/register/SignUpViewModel.kt:122-123 | the provider's success callback raises `isVerificationEmailSent` and changes nothing else |
| `Registration.OnEvent` | app/src/main/java/hoods/com/jetai/authentication/register/SignUpViewModel.kt:26-74 | `SignUp` runs `createUser`; `OnIsEmailVerificationChange` lowers `isVerificationEmailSent` and changes nothing else |
| `Registration.FieldEventsFrame` | app/src/main/java/hoods/com/jetai/authentication/register/SignUpViewModel.kt:28-62 | each field event sets exactly its own field to the event's value, and repeating it changes nothing more |
| `Login.VerificationMessage` | app/src/main/java/hoods/com/jetai/authentication/login/LoginViewModel.kt:159-164 | the unverified-account message is the two-line notice with its indentation trimmed, followed by the user's email, or "null" |
| `Login.BlankFieldsFailValidation` | app/src/main/java/hoods/com/jetai/authentication/login/LoginViewModel.kt:90-91 | a blank email or password fails validation, whitespace-only input included; a passing form has non-empty fields |
| `Login.RequireVerified` | app/src/main/java/hoods/com/jetai/authentication/login/LoginViewModel.kt:156-166 | a verified account passes unchanged; otherwise the resend button is shown and the verification notice is thrown |
| `Login.HasUserVerified` | app/src/main/java/hoods/com/jetai/authentication/login/LoginViewModel.kt:168 | true only when a user is signed in and verified; with a user it equals verification |
| `Login.DoLogin` | app/src/main/java/hoods/com/jetai/authentication/login/LoginViewModel.kt:114-154 | the spinner is off at the end. Only the spinner, the success flag, the message and the resend button are written: the credentials, the current user and the validity and verification fields are unchanged. A blank field gives "Password or Email can not be empty". Otherwise, an invalid address gives "Invalid Email Address" |
| `Login.RejectedLoginSkipsRepository` | app/src/main/java/hoods/com/jetai/authentication/login/LoginViewModel.kt:116-120 | a form failing either check gives the same result whatever the repository and the verification query would answer |
| `Login.VerifiedResponses` | app/src/main/java/hoods/com/jetai/authentication/login/LoginViewModel.kt:124-144 | for a verified account no handler throws; the flag follows the last non-`Loading` response; the message is the last `Error`'s, or the one before if there was none, even when a `Success` came after it; while the flow is live, the spinner is on exactly when the last response was `Loading`, since `Error` and a verified `Success` switch it off; only the spinner, the flag and the message change |
| `Login.VerifiedLogin` | app/src/main/java/hoods/com/jetai/authentication/login/LoginViewModel.kt:114-153 | a verified login past validation: the success flag follows the last settled response. The message is the producer's exception message if it failed. Otherwise it is the last `Error`'s, even when a `Success` came after it, or null when there was no `Error`. Only the spinner, the flag and the message are written |
| `Login.UnverifiedResponses` | app/src/main/java/hoods/com/jetai/authentication/login/LoginViewModel.kt:138-144 | for an unverified account the flag is never raised; the collection throws if and only if some `Success` arrived, and then the resend button is shown and the notice is thrown |
| `Login.WithoutSuccessVerificationUnused` | app/src/main/java/hoods/com/jetai/authentication/login/LoginViewModel.kt:124-144 | the verified-account answer is read only by the `Success` reducer, so a run without `Success` ends exactly as it does for a verified account: same state, same outcome |
| `Login.UnverifiedLogin` | app/src/main/java/hoods/com/jetai/authentication/login/LoginViewModel.kt:114-165 | an unverified login never raises the success flag; after a `Success`, the resend button is shown and the message is the verification notice. Without a `Success`, as with a wrong password, the result equals the verified login's. Only the spinner, the flag, the message and the resend button are written |
| `Login.GoogleSignIn` | app/src/main/java/hoods/com/jetai/authentication/login/LoginViewModel.kt:62-82 | Google sign-in has no `try`, so a producer exception escapes the sign-in |
| `Login.VerifiedGoogleResponses` | app/src/main/java/hoods/com/jetai/authentication/login/LoginViewModel.kt:62-80 | for a verified Google account nothing throws; an `Error` does not clear the flag, so the flag ends set exactly when it was set or some `Success` arrived; the message is the last `Error`'s, or the old one; `Loading` switches the spinner on and `Success` off, while an `Error` leaves it as it was |
| `Login.UnverifiedGoogleSignInThrows` | app/src/main/java/hoods/com/jetai/authentication/login/LoginViewModel.kt:62-82 | for an unverified Google account, the first `Success` shows the resend button and throws the verification notice out of the sign-in, flag unchanged, whatever follows it and whether or not the producer would fail later |
| `Login.ResendVerification` | app/src/main/java/hoods/com/jetai/authentication/login/LoginViewModel.kt:93-112 | a sent mail hides the resend button; a failure shows the error's message; nothing else changes |
| `Login.OnEvent` | app/src/main/java/hoods/com/jetai/authentication/login/LoginViewModel.kt:40-88 | only Google sign-in can end in an uncaught exception; email and password events set only their own field; signing out leaves the screen state alone |
| `Login.CurrentUserChanged` | app/src/main/java/hoods/com/jetai/authentication/login/LoginViewModel.kt:30-38 | the current-user subscription writes only `currentUser` |
| `ForgotPassword.SendLink` | app/src/main/java/hoods/com/jetai/authentication/forgot_password/ForgotPasswordViewmodel.kt:22-58 | the address is never written; an invalid address gives "Invalid Email Address" and changes nothing else |
| `ForgotPassword.ResetLinkResponses` | app/src/main/java/hoods/com/jetai/authentication/forgot_password/ForgotPasswordViewmodel.kt:31-50 | no handler throws; "link sent" follows the last non-`Loading` response; the spinner follows the last response; the message is the last `Error`'s, or the one before, even when a `Success` came after it |
| `ForgotPassword.ValidAddressOutcome` | app/src/main/java/hoods/com/jetai/authentication/forgot_password/ForgotPasswordViewmodel.kt:24-56 | for a valid address: "link sent" follows the last settled response and the spinner follows the last response. With no `finally`, a producer exception after a `Loading` leaves the spinner on and sets its message. Without one, the message is the last `Error`'s, even when a `Success` came after it, or null |
| `ForgotPassword.EmptyAddressRejected` | app/src/main/java/hoods/com/jetai/authentication/forgot_password/ForgotPasswordViewmodel.kt:28-30 | given only that the validator rejects "", an empty address gives "Invalid Email Address" whatever the repository would emit |
| `ForgotPassword.OnEvent` | app/src/main/java/hoods/com/jetai/authentication/forgot_password/ForgotPasswordViewmodel.kt:20-66 | `OnEmailChange` sets only the address; sending the link never changes the address |
| `Messages.GetMessages` | app/src/main/java/hoods/com/jetai/message/MessageViewModel.kt:47-55 | the list shown is the last `Success`'s list, or the old one; the default handlers make `Loading` and `Error` change nothing |
| `Messages.MessageListResponses` | app/src/main/java/hoods/com/jetai/message/MessageViewModel.kt:49-53 | folding the message-list responses only replaces the list, with the last `Success`'s payload |
| `Messages.SendMessage` | app/src/main/java/hoods/com/jetai/message/MessageViewModel.kt:57-78 | sending never touches the list or the user; "processing" is on exactly when the last response was `Loading` |
| `Messages.SendResponses` | app/src/main/java/hoods/com/jetai/message/MessageViewModel.kt:60-76 | `Loading` sets "processing"; `Error` and `Success` clear it; nothing else is written |
| `Messages.CurrentUserChanged` | app/src/main/java/hoods/com/jetai/message/MessageViewModel.kt:27-35 | the current-user subscription writes only `currentUser` |
| `ChatRooms.InitChatRoom` | app/src/main/java/hoods/com/jetai/chatroom/ChatRoomViewModel.kt:40-63 | the room-list collection never touches the pending new-room id or the user |
| `ChatRooms.ChatRoomResponses` | app/src/main/java/hoods/com/jetai/chatroom/ChatRoomViewModel.kt:42-61 | the list is the last `Success`'s list. The last response alone sets the spinner and the message: `Loading` shows the spinner with no message; `Error` hides it and shows the error's message; `Success` hides it with no message |
| `ChatRooms.ResetChatId` | app/src/main/java/hoods/com/jetai/chatroom/ChatRoomViewModel.kt:65-69 | clears the pending new-room id and nothing else |
| `ChatRooms.NewChatRoom` | app/src/main/java/hoods/com/jetai/chatroom/ChatRoomViewModel.kt:71-78 | records the id the repository returned, possibly null, and nothing else |
| `ChatRooms.ResetUndoesNewChatRoom` | app/src/main/java/hoods/com/jetai/chatroom/ChatRoomViewModel.kt:65-78 | creating a room and then resetting the id is the same as resetting alone |
| `ChatRooms.CurrentUserChanged` | app/src/main/java/hoods/com/jetai/chatroom/ChatRoomViewModel.kt:30-38 | the current-user subscription writes only `currentUse` |
| `PhotoReasoning.ToUiState` | app/src/main/java/hoods/com/jetai/photo_reasoning/PhotoReasoningViewModel.kt:44-58 | never `Initial`. `Loading` maps to `Loading`; `Success(s)` maps to `Success(s)`; `Error` maps to `Error` with the error's message, or "" when there is none |
| `PhotoReasoning.Reason` | app/src/main/java/hoods/com/jetai/photo_reasoning/PhotoReasoningViewModel.kt:40-60 | after a run, the screen shows the UI state of the last response, or is unchanged after an empty run; a producer exception escapes |
| `PhotoReasoning.LastResponseWins` | app/src/main/java/hoods/com/jetai/photo_reasoning/PhotoReasoningViewModel.kt:42-58 | no update reads the previous state, so after any finite sequence only the last response counts |
| `PhotoReasoning.ScreenShowsFullAnswer` | app/src/main/java/hoods/com/jetai/data/PhotoReasoningRepository.kt:17-40 | end to end, the screen shows one of three things: the model's whole accumulated answer; `Loading` if the model sent no chunk; or the message of the failure's cause |
| `PhotoReasoningRepo.Prompt` | app/src/main/java/hoods/com/jetai/data/PhotoReasoningRepository.kt:20 | the prompt splits into the fixed question preamble and the user's text, with no separator |
| `PhotoReasoningRepo.InputContent` | app/src/main/java/hoods/com/jetai/data/PhotoReasoningRepository.kt:23-28 | the model input is every selected image, in order, then the prompt text as the last part |
| `PhotoReasoningRepo.AccumulatedGrows` | app/src/main/java/hoods/com/jetai/data/PhotoReasoningRepository.kt:29-34 | an earlier accumulation is a prefix of every later one |
| `PhotoReasoningRepo.AccumulatedLength` | app/src/main/java/hoods/com/jetai/data/PhotoReasoningRepository.kt:32 | each chunk adds its text, and a null chunk adds the four letters "null" |
| `PhotoReasoningRepo.ProgressExtends` | app/src/main/java/hoods/com/jetai/data/PhotoReasoningRepository.kt:31-33 | one more chunk adds exactly one more `Success`, carrying that chunk accumulated |
| `PhotoReasoningRepo.ReasonEmissions` | app/src/main/java/hoods/com/jetai/data/PhotoReasoningRepository.kt:19-40 | the flow never throws. It emits `Loading` first. Then the k-th `Success` carries the first k chunks. With an exception, one final `Error` carries its cause; without one, everything after `Loading` is a `Success` |
| `PhotoReasoningRepo.SuccessPayloadsGrow` | app/src/main/java/hoods/com/jetai/data/PhotoReasoningRepository.kt:31-33 | each `Success` payload is a prefix of every later one |
| `PhotoReasoningRepo.Reason` | app/src/main/java/hoods/com/jetai/data/PhotoReasoningRepository.kt:17-40 | the accumulate-and-emit loop produces exactly the emissions described above, for the input built from the images and the prompt |
| `Routes.GetRouteWithArgs` | app/src/main/java/hoods/com/jetai/navigation/Route.kt:19-21 | the path is the route, a slash, then "true" or "false" matching the flag |
| `Routes.NewLoginScreen` | app/src/main/java/hoods/com/jetai/navigation/Route.kt:15-18 | the template is the route followed by `/{isEmailSent}`, so its prefix before the placeholder is the route itself |
| `Routes.ArgumentOf` | app/src/main/java/hoods/com/jetai/navigation/JetAiNavGraph.kt:60-70 | a path matches the registered template only when it is the template's prefix, a slash and one non-empty segment without a slash; that segment is the argument |
| `Routes.SegmentIsBound` | app/src/main/java/hoods/com/jetai/navigation/JetAiNavGraph.kt:60-70 | conversely, every such segment after the template's prefix is matched and bound unchanged |
| `Routes.EmailSentFlagRoundTrip` | app/src/main/java/hoods/com/jetai/navigation/Route.kt:19-21 | for a login screen built with any route, the graph binds the text of `b` from `getRouteWithArgs(b)`, and `toBoolean` turns it back into `b` |
| `Routes.DefaultLoginRoutes` | app/src/main/java/hoods/com/jetai/navigation/Route.kt:12-21 | the default login screen gives "login/{isEmailSent}", "login/true" and "login/false"; the flag defaults to false; "login/", "login/a/b" and "signup/true" match nothing |
| `Routes.TabsOrderAndTitles` | app/src/main/java/hoods/com/jetai/navigation/Route.kt:30-33 | the tabs are Chats, then VisualIq, titled "Chit Chat" and "Visual IQ"; each title leads back to its tab |

## Left out

- **Compose screens and components.** This is UI layout. It includes the blank-input guards inside the message and photo screens' callbacks.
- **`MainActivity`, `JetAiNavGraph` and `JetAiNavigationActions`.** Only the login route's argument is modelled, by `Routes.ArgumentOf`. The rest is back-stack bookkeeping of the navigation framework.
- **`AuthRepositoryImpl`, `GoogleAuthClient`, `ChatRepository`** and the Gemini model itself are wrappers over vendor SDKs. Each appears only as the run of responses it emits. `Graph.kt`, the service locator, is also left out.
- **Producers that never complete.** Several producers end in `awaitClose { }` and never call `close()`: the login, account-creation, Google sign-in, room-list and message-list flows. For them:
  - The `*Responses` lemmas (`Login.VerifiedResponses`, `Registration.ErrorFreeResponses`, and the like) describe what the screen shows while such a flow is live, after each prefix of what it delivered.
  - An `Emissions` run with `failure == None` never occurs for these producers in the app: the collection stays suspended until the coroutine is cancelled.
  - That cancellation is the model's `failure` case, carrying a `CancellationException`, which is an `Exception`. In `login` and `createUser` the `catch` turns it into the message and the `finally` switches the spinner off. Google sign-in has neither, so the exception escapes and the spinner stays as the responses left it.
  - When the cancellation happens, and which responses it interrupts, is outside the model.
  - The password-reset and credential sign-in flows have no `awaitClose`. They end with an `IllegalStateException` from the flow builder, after whatever they delivered; this is again the `failure` case.
- `Routes.ArgumentOf`: the navigation library's percent-decoding of arguments and its query-parameter matching are not modelled; the login paths built here contain neither.
- **`isValidEmail`** uses Android's e-mail pattern, so it is a parameter. The only fact used about it is that it rejects the empty string.
- **`hasVerifiedUser`** asks the provider when a `Success` is handled. It is one boolean per operation, so an account that becomes verified in the middle of a collection is not modelled.
- **`formatDate` and `saveImageToFileAndGetUri`** are locale-dependent formatting and file I/O.
- **`ModelName`** holds model-name constants that the view-models never read.
- **Coroutine scheduling** is not modelled. This covers:
  - `viewModelScope.launch`;
  - cancellation by `collectLatest`;
  - interleaving between concurrent events;
  - the `currentUser` subscriptions, which appear only as the state update each delivery makes;
  - the `fetchHistoryMsg` start-up call.
- **Exception class hierarchy.** Producer exceptions are taken to be `Exception`s, which `catch (e: Exception)` catches. A JVM `Error` escaping a `catch` is not modelled. The localized message and the message are the same value, because no class here overrides `getLocalizedMessage`.
- **Sign-up verification e-mail.** `sendVerificationEmail`'s `onError` throws inside an asynchronous provider callback. That crashes outside any view-model code, so only its `onSuccess` is modelled, as `Registration.VerificationEmailSent`.
- **Intents.** The Google sign-in intent and the intent sender are opaque platform objects. Only the run of responses they lead to is modelled.
- **Identifiers and timestamps.** `UUID.randomUUID()` and `Timestamp.now()` defaults are inputs to `Models.DefaultChatRoom`.
- `Responses.DataOf`: the model keeps Kotlin's two levels of null apart, so for a nullable payload `Success(null)` gives `Some(None)` where Kotlin's `data` is null. The flattened Kotlin reading is `Responses.NullableDataOf`. No view-model reads `data`.
- `Responses.DerivedFieldsExclusive`: stated for the model's two-level `DataOf`; for the nullable payloads of the authentication flows, `Success(null)` also has both fields null, which `Responses.NullablePayloadFields` states.
- `Login.VerificationMessage`: the trimmed-indent notice is evaluated by hand on the assumption that the user's e-mail contains no line break. A line break in the e-mail would add unindented lines, and `trimIndent` would then remove no indentation.
- `Login.GoogleSignIn`: its own contract states only that a producer exception escapes. Both paths are stated by lemmas: the verified path by `Login.VerifiedGoogleResponses`, and the unverified path by `Login.UnverifiedGoogleSignInThrows`.
- `Login.ResendVerification`: the provider's synchronous throw from `sendVerificationEmail` is not modelled. Its catch clause would set the same message as an `onError` callback, which is the `MailFailed` case.
