# Fuel-delivery demo app: a Dafny model of its stores and validators

The app is a client-only demo. A customer signs in with a phone number and a
mock one-time code, registers vehicles, and assembles an order over three
screens. They place it and watch a timer-driven simulator move it from
"searching for a captain" to "completed". This project models the parts of
the app that make decisions:

- **Order store and lifecycle simulator** (`orders.dfy`, module `Orders`).
  - The draft (`Partial<Order>`) is merged field by field.
  - Placement is guarded, and the new order goes to the front of the history.
  - Lookup and tracking pick the first history entry with a given id.
  - The five-step status machine SEARCHING_CAPTAIN → CAPTAIN_ASSIGNED →
    EN_ROUTE → ARRIVED → FUELLING → COMPLETED rewrites the tracked order and
    its history entries together.
  - Sign-out clears the in-memory history, tracked order and draft; persisted
    lists stay.
- **Vehicle registry** (`vehicles.dfy`, module `Vehicles`): add, update,
  remove and find by id, with the per-user persisted list.
- **Mock identity store** (`auth.dfy`, module `Auth`).
  - The fixed code "1234" is checked.
  - A profile is fetched or created under `user-<mobile>`.
  - The session entry is `fuelSwiftUser`.
  - Profile completion and logout.
- **Validators and decision rules**:
  - the add/edit vehicle form, with the registration-number pattern
    (`vehicle_form.dfy`);
  - the phone-number check (`login_gateway.dfy`);
  - the code-entry boxes (`otp_input.dfy`);
  - the route guard (`protected_route.dfy`);
  - the ongoing/past split of the order list (`my_orders.dfy`).

Shared pieces:

- `types.dfy` holds the records and enumerations of `types.ts`.
- `seqs.dfy` holds generic `find` / `filter` / selective `map`, with their
  order-preservation and partition lemmas.
- `text.dfy` holds JavaScript whitespace and `trim`, ASCII classes and
  upper-casing, and decimal rendering.
- `wrappers.dfy` holds `Option` and `Outcome`.

Modelling choices:

- Every asynchronous operation of the app is one atomic pure transition on
  an immutable state value. Each timer callback of the simulator is one
  `Orders.Step`.
- The device's key-value store is an abstract map with no encoding.
  Profiles use a `map<string, UserProfile>` under their literal keys.
  Vehicle and order lists use maps keyed by user id (`vehicles_<id>`,
  `orders_<id>`).
- The clock (`Date.now()`, ISO timestamps) and `Math.random()` are
  parameters. The code that `Math.floor(1000 + Math.random() * 9000)`
  produces is taken as any number in [1000, 9999], and the OTP is its
  decimal rendering.

Facts of the code that shape the model:

- Placement puts the new order at the front of the history
  (`[newOrder, ...pastOrders]`), and so does `PlaceOrder`.
- The simulator's effect clears its timer whenever the tracked order changes
  (contexts/OrderContext.tsx:148). So a step only ever fires for the order
  currently tracked.
- The simulator's steps update the in-memory history but never write it back
  to storage. Only placement persists. `Orders.Step` therefore keeps
  `stored` unchanged.
- `/profile-setup` is routed outside the guarded routes (App.tsx:35). The
  guard's "already on /profile-setup" exception is modelled as written, but
  the app never reaches it.

## Model

| member | source | states |
|---|---|---|
| Orders.Merge | contexts/OrderContext.tsx:16 | a field supplied by the update wins; a field it omits keeps the draft's value |
| Orders.MergeUnit | contexts/OrderContext.tsx:16 | merging with the empty draft, on either side, changes nothing |
| Orders.MergeAssociative | contexts/OrderContext.tsx:15-17 | successive draft updates compose: how the updates from the three screens are grouped does not matter |
| Orders.MergeRepeat | contexts/OrderContext.tsx:15-17 | repeating the last update leaves the draft as it is |
| Orders.UpdateCurrentOrder | contexts/OrderContext.tsx:15-17 | right-biased merge into the draft, a null draft counting as empty; history, tracked order and storage untouched |
| Orders.ClearCurrentOrder | contexts/OrderContext.tsx:19-21 | the draft is dropped and nothing else changes |
| Orders.PlaceOrder | contexts/OrderContext.tsx:23-49 | rejects with no change iff draft or user is missing or vehicle id, total or address is falsy; otherwise the order is the draft with the new id, the user's id, the timestamp and SEARCHING_CAPTAIN, prepended to an otherwise unchanged history, persisted, tracked, and the draft cleared |
| Orders.PlaceOrderRejectsFalsyFields | contexts/OrderContext.tsx:24-27 | a total of 0, an empty address or an empty vehicle id is rejected like a missing one |
| Orders.GetOrderById | contexts/OrderContext.tsx:56 | the first history entry with the id, or none exactly when no entry has it |
| Orders.PlacedOrderIsFound | contexts/OrderContext.tsx:40-56 | right after placement, looking up the new id returns the placed order |
| Orders.TrackOrder | contexts/OrderContext.tsx:94-101 | tracks the first entry with the id when it is neither COMPLETED nor CANCELLED, and tracks nothing when it is terminal or missing; history, draft and storage unchanged |
| Orders.NextStatusFollowsLifecycle | contexts/OrderContext.tsx:104-146 | the timer moves a status exactly one place along the five-step lifecycle; COMPLETED, CANCELLED, PENDING and CONFIRMED have no successor; nothing moves to CANCELLED |
| Orders.Step | contexts/OrderContext.tsx:104-149 | one firing advances the tracked order one place along the lifecycle. Every history entry with its id gets the new status, and other entries are unchanged. Entering CAPTAIN_ASSIGNED attaches the mock captain and a 4-digit OTP whose value is in [1000, 9999], to both the tracked order and its entries. Later steps keep captain and OTP. Storage and draft are unchanged |
| Orders.StepSynchronizes | contexts/OrderContext.tsx:117-144 | after any firing, every history entry with the tracked order's id has the tracked order's status |
| Orders.RunToCompletion | contexts/OrderContext.tsx:104-146 | an order at lifecycle position k is COMPLETED after 5-k firings, in lockstep with its history entries, and then no timer is scheduled |
| Orders.RunPosition | contexts/OrderContext.tsx:104-146 | after j firings an order that started at lifecycle position k is at position k+j, same id; so it is not COMPLETED after fewer than 5-k firings |
| Orders.PlacedOrderLifecycle | contexts/OrderContext.tsx:104-125 | a freshly placed order has a captain and a non-empty OTP after one firing, and it and its history entry are COMPLETED after five |
| Orders.RunKeepsHistoryLength | contexts/OrderContext.tsx:119-144 | the simulator never adds or removes history entries |
| Orders.RunKeepsIds | contexts/OrderContext.tsx:119-144 | the simulator never changes an order id |
| Orders.OnUserChange | contexts/OrderContext.tsx:83-91 | with no user, history, tracked order and draft are cleared; with a user, the history is that user's stored list or empty |
| Orders.OperationsPreserveValid | contexts/OrderContext.tsx:24-44 | every order in memory or in storage has passed the placement check, initially and after every operation |
| Vehicles.Save | contexts/VehicleContext.tsx:29-33 | the in-memory list becomes the new list; it is written under the user's id when someone is signed in, and storage is untouched otherwise |
| Vehicles.OnUserChange | contexts/VehicleContext.tsx:12-27 | the list is the user's stored list, or empty when none is stored or nobody is signed in |
| Vehicles.SavedListComesBack | contexts/VehicleContext.tsx:13-33 | a list saved for a signed-in user is what that user gets back on the next sign-in, also after signing out in between; a save with nobody signed in does not change what any user gets back |
| Vehicles.AddVehicle | contexts/VehicleContext.tsx:35-47 | exactly one vehicle (the data plus the supplied id) is appended; the prefix is the old list; it is persisted for a signed-in user |
| Vehicles.UpdateVehicle | contexts/VehicleContext.tsx:50-62 | same length, entries with the id replaced, all others unchanged; persisted for a signed-in user |
| Vehicles.RemoveVehicle | contexts/VehicleContext.tsx:64-76 | no entry with the id survives, every other entry does, and the list does not grow |
| Vehicles.GetVehicleById | contexts/VehicleContext.tsx:78-80 | the first entry with the id, or none exactly when no entry has it |
| Vehicles.AddThenGet | contexts/VehicleContext.tsx:40-41 | after adding under an unused id, lookup of that id returns the new vehicle |
| Vehicles.RemoveThenGet | contexts/VehicleContext.tsx:69 | after removing an id, lookup of it finds nothing |
| Vehicles.RemoveSplitsList | contexts/VehicleContext.tsx:69 | the surviving and the removed entries together are the old list, as a multiset |
| Vehicles.RemovePreservesOrder | contexts/VehicleContext.tsx:69 | the survivors keep their original relative order |
| Vehicles.UpdateThenGet | contexts/VehicleContext.tsx:55 | after updating an id present in the list, lookup of it returns the new version |
| Vehicles.UpdateUnknownIsNoop | contexts/VehicleContext.tsx:55 | updating with an id not in the list leaves it identical |
| Vehicles.RemoveUnknownIsNoop | contexts/VehicleContext.tsx:69 | removing an id not in the list leaves it identical |
| Vehicles.AddTwoRemoveOne | contexts/VehicleContext.tsx:35-76 | two vehicles added and the first removed leaves exactly the second, under its original id, in memory and in storage |
| Auth.ProfileKey | contexts/AuthContext.tsx:30 | the key is "user-" followed by exactly the number |
| Auth.KeysDistinct | contexts/AuthContext.tsx:30-43 | distinct numbers have distinct profile keys, and no profile key is the session key |
| Auth.Restore | contexts/AuthContext.tsx:12-20 | a stored session signs its user in; without one nobody is signed in |
| Auth.Login | contexts/AuthContext.tsx:23-52 | succeeds iff the code is "1234"; otherwise rejects with "Invalid OTP" and changes nothing. On success it uses the number's stored profile, or creates and stores one with that number and an empty name. That profile becomes the user, the flag is set, the session entry is written, other entries stay, and no other entry is added |
| Auth.CompleteProfile | contexts/AuthContext.tsx:54-71 | rejects with no change when nobody is signed in. Otherwise it sets the name and keeps id and number. It keeps the old email unless a non-empty one is given, and rewrites both the session and the number's entry |
| Auth.Logout | contexts/AuthContext.tsx:73-78 | clears user, flag and session entry; every other entry stays as it was and no entry is added |
| Auth.LoginTwiceSameProfile | contexts/AuthContext.tsx:30-34 | two logins with the same number yield the same profile |
| Auth.ProfileSurvivesLogout | contexts/AuthContext.tsx:30-77 | login, complete profile, logout, login again with the same number restores the completed profile |
| Auth.OperationsPreserveConsistent | contexts/AuthContext.tsx:41-76 | the flag is set exactly when there is a user, the session entry holds that user, and profiles are filed under their own numbers; all three operations preserve this |
| Auth.RestoreConsistent | contexts/AuthContext.tsx:12-20 | restoring from a store whose profiles are filed under their own numbers gives a consistent state |
| Text.Trim | screens/AddEditVehicleScreen.tsx:42 | the result is the input between leading and trailing whitespace (ECMAScript's whitespace and line terminators) and neither starts nor ends with whitespace |
| Text.TrimEmptyIffWhitespace | screens/LoginGatewayScreen.tsx:16 | a string trims to empty exactly when it is all whitespace |
| Text.AsciiUpper | screens/AddEditVehicleScreen.tsx:58 | `toUpperCase()` on ASCII: same length, each lower-case ASCII letter replaced by its capital, every other character kept |
| Text.AsciiUpperFacts | screens/AddEditVehicleScreen.tsx:58 | upper-casing turns letters upper-case, keeps every other character, and is idempotent |
| Text.NatToDecimal | contexts/OrderContext.tsx:116 | `toString()` of a whole number is a non-empty string of decimal digits without a leading zero |
| Text.DecimalRoundTrip | contexts/OrderContext.tsx:116 | reading back the decimal rendering of a number gives the number |
| Text.FourDigits | contexts/OrderContext.tsx:116 | numbers 1000-9999 render as exactly four digits |
| VehicleForm.Parse | screens/AddEditVehicleScreen.tsx:49-50 | the pattern test: whatever it accepts is the join of a well-formed cut into the seven groups (two letters, optional separator, 1-2 digits, optional separator, 1-2 letters, optional separator, 1-4 digits) |
| VehicleForm.ParseComplete | screens/AddEditVehicleScreen.tsx:49 | every well-formed join is accepted and cut back into the same groups |
| VehicleForm.ParseMatchesPattern | screens/AddEditVehicleScreen.tsx:49-50 | the matcher accepts exactly the strings of the pattern: 2 letters, optional whitespace/hyphen, 1-2 digits, optional separator, 1-2 letters, optional separator, 1-4 digits, letters in either case |
| VehicleForm.ExampleAccepted | screens/AddEditVehicleScreen.tsx:48-49 | "MH 12 AB 1234" is accepted |
| VehicleForm.UpperKeepsMatch | screens/AddEditVehicleScreen.tsx:58 | upper-casing an accepted registration number keeps it accepted |
| VehicleForm.Submit | screens/AddEditVehicleScreen.tsx:38-68 | only the two messages are ever shown: "All fields are required." only for an incomplete form, the format error only for a complete form whose trimmed registration number the pattern rejects. An accepted form saves the trimmed nickname (non-empty) and the trimmed, upper-cased registration number, which still matches; the two choices are unchanged. It saves by update with the route id iff that id is present and non-empty, and by add otherwise |
| VehicleForm.SubmitRejects | screens/AddEditVehicleScreen.tsx:42-53 | "All fields are required." exactly when the nickname or registration is whitespace only or a choice is unset, checked before the pattern; the format error exactly when the form is complete and the trimmed registration number does not match |
| LoginGateway.MatchesPattern | screens/LoginGatewayScreen.tsx:16 | the pattern test on the untrimmed input accepts exactly an optional '+' followed by 10 to 15 ASCII digits |
| LoginGateway.AcceptedShape | screens/LoginGatewayScreen.tsx:16 | an accepted number is 10 to 16 characters long, contains no whitespace, and so never trims to empty |
| LoginGateway.Submit | screens/LoginGatewayScreen.tsx:14-24 | accepts iff the untrimmed input is an optional '+' and 10-15 digits; on acceptance clears the error and forwards exactly the input to /otp; otherwise shows the validation message |
| LoginGateway.BlankRejected | screens/LoginGatewayScreen.tsx:16-19 | empty or whitespace-only input is rejected with the validation message |
| LoginGateway.PaddedNumberRejected | screens/LoginGatewayScreen.tsx:16 | a valid number is accepted but the same number with a leading or trailing space is not |
| OtpInput.Initial | components/OtpInput.tsx:10-11 | the boxes start as `length` empty slots |
| OtpInput.HandleChange | components/OtpInput.tsx:14-29 | non-numeric input changes nothing and fires nothing. Otherwise only slot `index` changes, to the input's last character or to empty. The focus moves right after non-empty input unless on the last slot. Completion fires iff no slot is empty, with the slots joined in order |
| OtpInput.FocusOnBackspace | components/OtpInput.tsx:31-35 | Backspace in an empty slot other than the first moves the focus one slot left |
| OtpInput.BackspaceAfterChange | components/OtpInput.tsx:18-35 | after a slot other than the first is cleared, Backspace in it moves the focus one slot left; after a slot is filled, Backspace there leaves the focus alone |
| OtpInput.ConcatOfSingles | components/OtpInput.tsx:27 | joining one-character slots gives one character per slot, in slot order |
| OtpInput.SlotsStayWellFormed | components/OtpInput.tsx:11-27 | every slot always holds at most one character, and a completed code has one character per slot |
| OtpInput.DigitsComplete | components/OtpInput.tsx:18-28 | filling the last of the four default slots with a digit completes a four-digit code |
| ProtectedRoute.Decide | components/ProtectedRoute.tsx:7-23 | signed-out always goes to /login; signed-in with no name goes to /profile-setup from any other path; signed-in with a name always sees the page; every redirect carries the current path as `from` |
| ProtectedRoute.NoRedirectLoop | components/ProtectedRoute.tsx:17-19 | the page a profile-setup redirect leads to is shown without a further redirect |
| ProtectedRoute.OnboardingGate | components/ProtectedRoute.tsx:11-22 | right after a first login with a new number every other path redirects to profile setup; after completing the profile with a name every path opens |
| MyOrders.OngoingOrders | screens/MyOrdersScreen.tsx:65 | holds only non-terminal orders and every non-terminal order of the history |
| MyOrders.FinishedOrders | screens/MyOrdersScreen.tsx:66 | holds only COMPLETED/CANCELLED orders and every such order of the history |
| MyOrders.ListsPartitionHistory | screens/MyOrdersScreen.tsx:65-66 | the two lists split the history: lengths add up and multisets add up to the history's |
| MyOrders.ListsKeepHistoryOrder | screens/MyOrdersScreen.tsx:65-66 | both lists keep the history's order |
| MyOrders.OrdersToDisplay | screens/MyOrdersScreen.tsx:68 | the ongoing list is shown iff the tab is 'ongoing' |
| MyOrders.DisplayedOrdersAgreeWithTab | screens/MyOrdersScreen.tsx:65-81 | on either tab, clicking a listed order opens tracking exactly when the ongoing tab is shown; the two tabs together list the history, each order as often as it occurs there |
| MyOrders.ShortId | screens/MyOrdersScreen.tsx:77 | the last six characters of the id, or all of it when shorter |
| MyOrders.HandleOrderClick | screens/MyOrdersScreen.tsx:70-81 | navigates to /tracking/<id> iff the order is neither COMPLETED nor CANCELLED; completed and cancelled orders show their notices |
| MyOrders.TabsAgreeWithClicks | screens/MyOrdersScreen.tsx:10 | every order on the ongoing tab opens tracking and none on the past tab does, in agreement with the item's `isOngoing` flag |
| Seqs.FilterPreservesOrder | screens/MyOrdersScreen.tsx:65-66 | a filter keeps exactly the positions whose elements satisfy the predicate, in increasing order |
| Seqs.FilterPartition | screens/MyOrdersScreen.tsx:65-66 | filters with complementary predicates split a list, by length and by multiset |

## Left out

- Timers, delays, promises and the `isLoading` flags are not modelled. React's effect and re-render scheduling is not either. Each operation is one atomic step, so stale-closure orderings between screens are out of scope.
- `localStorage` and JSON (de)serialisation are abstract maps without encoding. A stored value that does not parse is not modelled.
- `Date.now()` ids, ISO timestamps and `Math.random()` are parameters. Id collisions are possible in the app and allowed in the model.
- Price computation, litres-to-rupees conversion and the fee and GST constants are left out. They are IEEE floating point with `parseFloat`/`toFixed(2)` rounding. Money fields are `real` values that the model only carries.
- Orders.PlaceOrder: a NaN total is falsy in the app; the model has no NaN and only treats 0 as falsy.
- Orders.Step: the captain's `currentLocation` is a parameter. The app computes it in floating point with an operator-precedence quirk.
- The draft has the twelve fields the ordering screens set. The remaining keys of `Partial<Order>` (id, user id, status, date, captain, OTP) are never supplied by a caller. Placement overwrites the first four.
- Orders.Merge: an update key that is present but `undefined` would override in a JavaScript spread; the model treats it as absent, and no caller passes one.
- `fetchPastOrders` as a separate call is modelled only through `Orders.OnUserChange`, which runs the same code.
- `PastOrder.invoiceUrl` is never set by the app and is not modelled.
- The edit form's pre-fill effect and its "Vehicle not found." message are presentation and are left out. So is the browser confirmation before deleting; the deletion itself is `Vehicles.RemoveVehicle`.
- OtpInput.HandleChange: JavaScript's `Number()` coercion is a boolean parameter. The model assumes only that it holds of digit strings, including the empty one.
- OtpInput.HandleChange: `index` must address an existing slot, because only the rendered boxes call the handler.
- Strings are sequences of Unicode code points, not UTF-16 code units. `slice(-1)` on a surrogate pair is not modelled.
- Text.AsciiUpper models `toUpperCase` for ASCII only, and it agrees with JavaScript on every string the registration pattern accepts. The field's per-keystroke upper-casing (screens/AddEditVehicleScreen.tsx:123) is not modelled; the form's registration number is an arbitrary string.
- Geolocation, the home screen's order button, and timed navigation are left out. So are the splash and order-placed screens, the tracking screen's countdown, the layout chrome and the routing table. These are presentation or I/O.
