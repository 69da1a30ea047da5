# MoveEazy ride-hailing core, modelled in Dafny

MoveEazy is a ride-hailing application. Riders book trips, drivers accept and
complete them, and administrators approve drivers and watch the figures. This
project models the core of that system and proves properties of the model.

**Backend.** The request handlers of the Express backend cover rides, drivers,
administrators, registration and login, plus the JWT role gates.

- The SQL tables (`users`, `drivers`, `rides`, `admins`, `transactions`) are
  in-memory tables. Each has an auto-increment id (`Tables`, `Schema`).
- Every handler that writes is a method on the shared `Database` object. It
  returns the HTTP status of its response, and its contract states the whole
  new state of every table.
- Every read-only handler is a function over the tables.
- `Database.Valid()` is preserved by every writing handler. It says that:
  - ids were handed out by the counters;
  - emails, phones, licences and plates are unique;
  - a ride without a driver is pending or cancelled;
  - every transaction names a known ride.

**Frontend.** The React client is modelled piece by piece:

- the session store mirrored to localStorage (`AuthContext`);
- the route guard (`AppRoutes`);
- the fare estimate and address shortening (`Maps`);
- the three admin list screens, with their filters, counters, revenue, CSV
  export, sort header, checkboxes and bulk actions (`RidesManagement`,
  `DriversManagement`, `DriversManagementSimple`, `UsersManagement`);
- the rider's booking dashboard (`UserDashboard`);
- the admin login page and profile settings (`AdminLogin`,
  `AdminProfileSettings`).

Component state is a class whose methods are the event handlers. The requests a
screen sends are the backend handler methods they reach, called on the same
`Database` object.

**Abstracted dependencies.** External libraries and the environment are
parameters:

- bcrypt is `hash` / `compare`;
- jwt is `sign` / `verify`;
- `JSON.stringify` / `JSON.parse` are `stringify` / `parse`;
- the clock is `now` or an `isToday` / `datePasses` predicate;
- number and date formatting in the export are `num` / `dateOf`.

Nothing is assumed about these parameters, except where a lemma names the
round trip it needs, for example `parse(stringify(x)) == x`.

**Notable results.**

- `AuthMiddleware.IssuedTokenAdmitted`: a token issued at login and sent back
  as `Bearer <token>` passes exactly the gate of its account type.
- `AdminProfileSettings.SavedCredentialsAdmitted`: credentials saved by the
  settings form are accepted by the login page.
- `RidesManagement.ExportReadBack`: the CSV export reads back as the header
  plus one line per shown ride.
- Bulk driver status updates and bulk user deletes are loops over the backend
  handlers. Their proofs show they change exactly the selected rows.
- `AdminLogin.BlankFormAdmitted`: the admin login admits a completely blank
  form even after credentials have been saved. This is how the source is
  written (frontend/src/pages/admin/AdminLogin.jsx:39); the model keeps it
  and proves it.

## Model

| member | source | states |
|---|---|---|
| Tables.Table.Insert | backend/controllers/rideController.js:22-28 | an INSERT gives the row the next auto-increment id, which no existing row has, and keeps the table's ids valid |
| Tables.Table.Update | backend/controllers/rideController.js:111-114 | an UPDATE by id replaces exactly that row and is a no-op for an unknown id |
| Tables.Table.Delete | backend/controllers/adminController.js:208 | a DELETE by id removes exactly that id and leaves every other row as it was |
| Tables.Select | backend/controllers/adminController.js:72-78 | a filtered SELECT ordered newest first returns matching ids only, in strictly decreasing order, and every matching row |
| Tables.Newest | backend/controllers/rideController.js:78-85 | with LIMIT n: at most n ids, a prefix of the full newest-first list, and any matching row left out is older than every row returned |
| Tables.Latest | backend/controllers/rideController.js:271-283 | `LIMIT 1` read as `rows[0] \|\| null`: the newest matching row, or none exactly when no row matches |
| Tables.First | backend/controllers/authController.js:48-53 | `rows[0]` of a lookup: a matching row with the lowest id, and none only when no row matches |
| Tables.CountAll | backend/controllers/adminController.js:8-11 | `COUNT(*)` without a condition equals the number of rows |
| RideController.CalculateFare | backend/controllers/rideController.js:4-8 | a fare is never below the base fare 15 for a non-negative distance, and above it for any positive distance |
| Schema.SetAvailable | backend/controllers/rideController.js:117 | only the named driver's `is_available` changes; every other driver and the id set stay as they were |
| RideController.CreateRide | backend/controllers/rideController.js:11-47 | answers 201 and inserts a pending ride without a driver, priced 15 + 8·distance; the response carries the new id, both places, that fare and 'pending'; the other tables are unchanged |
| RideController.AcceptRide | backend/controllers/rideController.js:100-117 | 404 for an unknown ride and 400 for a ride that is not pending, both with no change; otherwise that ride gets the caller as driver and status 'accepted', the caller becomes unavailable, and nothing else changes |
| RideController.UpdateRideStatus | backend/controllers/rideController.js:140-176 | 404 with no change unless the caller drives that ride; otherwise any requested status is written without looking at the current one; 'completed' also frees the driver, adds one ride to their count, appends one earning transaction for the estimated fare and sets the final fare to it |
| RideController.CompleteTrip | backend/controllers/rideController.js:160-163 | the driver is available again with exactly one more ride; no other driver changes |
| RideController.CancelRide | backend/controllers/rideController.js:200-219 | 404 unless the ride is the caller's, 400 for a completed ride, no change in either case; otherwise the ride is cancelled and an assigned driver becomes available again |
| RideController.SetRating | backend/controllers/rideController.js:255-258 | only the named driver's rating changes |
| RideController.RatingWithinStars | backend/controllers/rideController.js:250-258 | when every rating given to a driver is between 1 and 5, the driver's new rating (the mean, or 5 when missing or zero) is between 1 and 5 |
| RideController.RateRide | backend/controllers/rideController.js:235-258 | succeeds only on the caller's own completed ride, storing rating and feedback; the driver's rating becomes the mean over all of that driver's rated rides, or 5; otherwise 404 with no change |
| RideController.AvailableRides | backend/controllers/rideController.js:78-85 | at most 20 pending rides whose rider exists, newest first; a pending ride left out means 20 newer ones were returned |
| RideController.CurrentRide | backend/controllers/rideController.js:271-283 | the rider's newest ride that is pending, accepted or picked up, or none exactly when the rider has no such ride |
| RideController.DriverCurrentRide | backend/controllers/rideController.js:294-304 | the driver's newest accepted or picked-up ride whose rider exists, or none exactly when there is no such ride |
| DriverController.SetLocation | backend/controllers/driverController.js:9-12 | only the named driver's position changes |
| DriverController.UpdateLocation | backend/controllers/driverController.js:6-17 | answers 200 and overwrites the caller's position; nothing else changes |
| DriverController.UpdateAvailability | backend/controllers/driverController.js:27-35 | answers 200, sets the caller's availability and echoes the value sent |
| DriverController.GetProfile | backend/controllers/driverController.js:45-55 | 404 'Driver not found' exactly when the caller has no row; otherwise every column the SELECT names, vehicle type, model and colour included, as stored |
| DriverController.GetEarnings | backend/controllers/driverController.js:63-101 | counts the driver's completed rides overall and today, with today's count at most the total; the total and today's earnings are the sums of `COALESCE(final_fare, estimated_fare)` over those rides, 0 when there are none; the average is the total over the count, 0 with no rides; today's earnings never exceed the total when no fare is negative |
| DriverController.EarningsTodayBound | backend/controllers/driverController.js:80-97 | with no negative fares, the sum over today's completed rides is at most the sum over all of them |
| DriverController.RideHistory | backend/controllers/driverController.js:111-122 | at most 50 of the driver's rides, newest first; a ride of the driver whose rider exists is left out only when 50 newer ones were returned |
| AdminController.DashboardStats | backend/controllers/adminController.js:5-62 | the counts are the table sizes and the filtered counts; pending plus active drivers are at most all drivers; completed plus active rides are at most all rides; today's rides are at most all; total revenue sums the completed rides' final fares; today's revenue is between 0 and the total when no fare is negative |
| AdminController.RevenueBounds | backend/controllers/adminController.js:37-44 | with no negative final fares, today's revenue is non-negative and at most the total revenue |
| AdminController.UsersList | backend/controllers/adminController.js:70-81 | every user exactly once, newest first, with name, email, phone and the number of rides carrying the user's id; no password |
| AdminController.DriversList | backend/controllers/adminController.js:89-109 | every driver (or every driver of the requested status), newest first, each with its count of completed rides; an empty status keeps all |
| AdminController.SetStatus | backend/controllers/adminController.js:126 | only the named driver's status changes |
| AdminController.UpdateDriverStatus | backend/controllers/adminController.js:117-131 | 200 exactly for 'approved', 'rejected' or 'suspended', from any current status; otherwise 400 with no change |
| AdminController.RidesList | backend/controllers/adminController.js:139-162 | at most 100 rides whose rider exists (of the requested status, if any), newest first; one left out means 100 newer ones were returned |
| AdminController.DeleteUser | backend/controllers/adminController.js:205-210 | answers 200 and removes exactly that user; the user's rides stay |
| AdminController.DeleteDriver | backend/controllers/adminController.js:217-222 | answers 200 and removes exactly that driver |
| AdminController.CreateAdmin | backend/controllers/adminController.js:229-246 | 400 with no change exactly when the email is taken; otherwise 201 and the admin is inserted with the hashed password and role 'admin' when none is given |
| AuthController.TokenIdentifiesAccount | backend/controllers/authController.js:6-8 | a generated token verifies back to exactly the id and account type it was signed for, so two different accounts never get the same token, whenever verification inverts signing |
| AuthController.RegisterUser | backend/controllers/authController.js:11-36 | 400 with no change exactly when the email or phone is already registered; otherwise 201, the user is stored with the hashed password, and a user token for the new id is returned |
| AuthController.RegisterDriver | backend/controllers/authController.js:79-110 | 400 with no change exactly when the email, phone, licence or plate is taken; otherwise 201 and a pending driver is stored and reported as 'pending' |
| AuthController.LoginUser | backend/controllers/authController.js:44-71 | any refusal is 401 'Invalid credentials'; a token is issued for a user with that email whose password hash matches, and, emails being unique, exactly when there is one |
| AuthController.LoginDriver | backend/controllers/authController.js:118-157 | an unknown email gets 401 'Invalid credentials'; every 403 carries one of the two status messages and belongs to a pending, rejected or suspended driver; with unique emails a token is issued exactly when the driver under that email has another status and a matching password |
| AuthController.LoginDriverByStatus | backend/controllers/authController.js:127-144 | for the driver registered under the email: 'Account pending approval' for pending, 'Account not active. Contact admin.' for rejected or suspended, both 403; 401 for a wrong password; otherwise a driver token for that driver |
| AuthController.FoundDriver | backend/controllers/authController.js:122-127 | with unique emails, the lookup by email finds exactly the driver registered under it |
| AuthController.StatusGateFirst | backend/controllers/authController.js:127-139 | a blocked driver gets the same 403 answer whatever password is sent |
| AuthController.LoginAdmin | backend/controllers/authController.js:165-191 | any refusal is 401 'Invalid credentials'; a token is issued for an admin with that email whose password hash matches, and, emails being unique, exactly when there is one |
| AuthMiddleware.TokenFrom | backend/middleware/auth.js:4-5 | the token is the second space-separated word of the header when that word exists and is non-empty, and never contains a space |
| AuthMiddleware.BearerToken | backend/middleware/auth.js:5 | a header `<scheme> <token>` yields exactly the token |
| AuthMiddleware.AuthenticateToken | backend/middleware/auth.js:3-18 | 401 without a token, 403 when verification fails, otherwise passes with the verified payload |
| AuthMiddleware.AuthenticateRole | backend/middleware/auth.js:20-45 | verification errors pass through unchanged; a verified token passes exactly when its type equals the gate's, and otherwise gets 403 with the gate's message |
| AuthMiddleware.AuthenticateUser | backend/middleware/auth.js:20-27 | only a token of type 'user' passes |
| AuthMiddleware.AuthenticateDriver | backend/middleware/auth.js:29-36 | only a token of type 'driver' passes |
| AuthMiddleware.AuthenticateAdmin | backend/middleware/auth.js:38-45 | only a token of type 'admin' passes |
| AuthMiddleware.IssuedTokenAdmitted | backend/middleware/auth.js:3-45 | a token signed for an account type, sent back as a bearer header, passes that type's gate with its payload and is refused by any other gate |
| Maps.FareOfNoDistance | frontend/src/config/maps.js:50-54 | a trip of no distance costs the base fare 15 |
| Maps.FareIncreasing | frontend/src/config/maps.js:50-54 | a longer trip always costs more |
| Maps.FareMatchesServer | frontend/src/config/maps.js:50-54 | the client's estimate equals the fare the server stores for the same distance |
| Maps.CalculateFare | frontend/src/config/maps.js:50-54 | the estimate is never below the base fare 15 for a non-negative distance, and above it for any positive distance |
| Maps.FormatAddress | frontend/src/config/maps.js:57-60 | '' for a missing or empty address; otherwise a prefix of the address with at most one comma, whose parts are its first two comma-separated parts |
| Maps.FormatAddressIdempotent | frontend/src/config/maps.js:57-60 | shortening an already shortened address changes nothing |
| Text.JoinSplit | frontend/src/config/maps.js:59 | joining the parts of a split with the same separator gives back the string |
| Text.SplitJoin | frontend/src/components/admin/RidesManagement.jsx:63 | splitting a join of separator-free parts gives back exactly those parts |
| AuthContext.WriteSession | frontend/src/context/AuthContext.jsx:26-28 | login writes the token (a null token as "null"), the serialised user and the type, and no other key |
| AuthContext.ClearSession | frontend/src/context/AuthContext.jsx:35-37 | logout removes exactly the three session keys |
| AuthContext.Restored | frontend/src/context/AuthContext.jsx:10-20 | a session is taken over only when both token and user are stored and non-empty; then the token is the stored one, and when the user parses the session is the stored user, token and type, the type possibly null |
| AuthContext.LogoutUndoesLogin | frontend/src/context/AuthContext.jsx:22-38 | after login then logout, storage equals the storage before login with its session keys removed |
| AuthContext.RestoreAfterLogin | frontend/src/context/AuthContext.jsx:10-29 | a session written by login is restored as written on the next mount, when parsing inverts serialising |
| AuthContext.AuthProvider.constructor | frontend/src/context/AuthContext.jsx:6-8 | the provider starts with no user, token or type |
| AuthContext.AuthProvider.Restore | frontend/src/context/AuthContext.jsx:10-20 | the mount effect sets the fields to `Restored` of the storage |
| AuthContext.AuthProvider.Login | frontend/src/context/AuthContext.jsx:22-29 | sets the three fields and writes exactly the three keys |
| AuthContext.AuthProvider.Logout | frontend/src/context/AuthContext.jsx:31-38 | clears the three fields and removes exactly the three keys |
| AuthContext.UseAuth | frontend/src/context/AuthContext.jsx:47-53 | throws 'useAuth must be used within AuthProvider' exactly when there is no provider |
| AppRoutes.ProtectedRoute | frontend/src/App.jsx:20-44 | no user redirects home; a required type with no type yet shows the loading view; the child renders exactly when a user exists and no type is required or the types are equal |
| AppRoutes.Render | frontend/src/App.jsx:53-91 | unknown paths go home; the home, login and register pages render for anyone, logged in or not; a dashboard renders exactly for a logged-in user of its own type, a visitor with no user is sent home, and a user whose type is not known yet sees the loading view |
| AppRoutes.PublicPagesOpen | frontend/src/App.jsx:53-80 | a visitor who is not logged in sees the home page and the three login pages, not a redirect |
| ListViews.Filter | frontend/src/components/admin/DriversManagement.jsx:123-132 | `Array.filter`: an order-preserving sub-list, no longer than the input, holding exactly the kept elements |
| ListViews.CountWhere | frontend/src/components/admin/RidesManagement.jsx:172 | `filter(...).length` is at most the length of the list |
| ListViews.NextSort | frontend/src/components/admin/RidesManagement.jsx:156-163 | the clicked column becomes the sort column; on the same column the direction flips, on a new one it is ascending |
| ListViews.SortTwice | frontend/src/components/admin/RidesManagement.jsx:156-163 | two clicks on the current column restore the sort |
| ListViews.SortNewColumn | frontend/src/components/admin/RidesManagement.jsx:156-163 | a new column sorts ascending, and a second click makes it descending |
| ListViews.Toggled | frontend/src/components/admin/DriversManagement.jsx:166-172 | checking appends the id even when already present; unchecking removes every occurrence and keeps the rest in order |
| ListViews.CheckThenUncheck | frontend/src/components/admin/DriversManagement.jsx:166-172 | checking then unchecking a row equals unchecking it |
| ListViews.UncheckAbsent | frontend/src/components/admin/DriversManagement.jsx:166-172 | unchecking an id that is not selected changes nothing |
| ListViews.AllSelected | frontend/src/components/admin/DriversManagement.jsx:158-164 | select-all selects exactly the shown ids and never an id that is not on screen, and deselect-all selects nothing; afterwards the header box is checked exactly when select-all ran on a non-empty list |
| ListViews.HeaderFollowsSelectAll | frontend/src/components/admin/DriversManagement.jsx:354 | after select-all on a non-empty list the header box is checked, and after deselect-all it is not |
| RidesManagement.EmptySearchMatchesAll | frontend/src/components/admin/RidesManagement.jsx:104-108 | an empty search matches every ride, through the ride number |
| RidesManagement.FilteredRides | frontend/src/components/admin/RidesManagement.jsx:103-136 | an order-preserving sub-list of the rides; each shown ride matches the search, the dates, the status and payment method unless 'all', and the fare bounds on `final_fare \|\| estimated_fare`; every ride passing all tests is shown |
| RidesManagement.InitialFiltersKeepAll | frontend/src/components/admin/RidesManagement.jsx:22-28 | the panel as first shown filters nothing out |
| RidesManagement.CountStatuses | frontend/src/components/admin/RidesManagement.jsx:170-177 | `all` is the number of rides and each status count is at most it |
| RidesManagement.CountsPartition | frontend/src/components/admin/RidesManagement.jsx:170-177 | when every ride has one of the five statuses, the five counts add up to `all` |
| RidesManagement.ReduceCompleted | frontend/src/components/admin/RidesManagement.jsx:179-181 | the left fold over the completed rides equals the reference sum of final fares (0 when missing) over completed rides |
| RidesManagement.CompletedRevenueNonNegative | frontend/src/components/admin/RidesManagement.jsx:179-181 | with no negative final fare, the revenue is non-negative |
| RidesManagement.TotalRevenue | frontend/src/components/admin/RidesManagement.jsx:179-181 | the revenue is the sum of final fares (0 when missing) over completed rides only, and non-negative when no fare is negative |
| RidesManagement.RevenueAppend | frontend/src/components/admin/RidesManagement.jsx:179-181 | the revenue of two lists is the sum of their revenues |
| RidesManagement.ExportRow | frontend/src/components/admin/RidesManagement.jsx:52-62 | one cell per header column: the id first, the shown fare in the fare column, the status in the status column |
| RidesManagement.ExportLines | frontend/src/components/admin/RidesManagement.jsx:50-63 | the header line, then exactly one line per shown ride, in the shown order |
| RidesManagement.ExportReadBack | frontend/src/components/admin/RidesManagement.jsx:49-64 | reading the file back line by line gives the header and then one line per shown ride, in order, when no cell holds a line break |
| RidesManagement.RidesView.constructor | frontend/src/components/admin/RidesManagement.jsx:14-28 | no rows, every filter open, sorted by creation time descending |
| RidesManagement.RowOf | backend/controllers/adminController.js:143-149 | a row of the admin rides query carries the rider's name, the driver's name exactly when the ride has a driver that still exists, and the ride's places, fares and status, with no payment method |
| RidesManagement.FetchedRows | frontend/src/components/admin/RidesManagement.jsx:34-38 | one joined row per ride of the admin rides list, at most 100, in the list's newest-first order |
| RidesManagement.RidesView.Fetch | frontend/src/components/admin/RidesManagement.jsx:34-47 | the rows become the fetched rows; the filter panel and the sort are kept |
| RidesManagement.RidesView.HandleSort | frontend/src/components/admin/RidesManagement.jsx:156-163 | the sort becomes `NextSort` of the old sort; rows and filters are untouched |
| DriversManagement.FilteredDrivers | frontend/src/components/admin/DriversManagement.jsx:123-132 | an order-preserving sub-list; each shown driver matches the search and the status tab; every driver passing both is shown |
| DriversManagement.NoFilterShowsAll | frontend/src/components/admin/DriversManagement.jsx:124-130 | an empty search on the 'all' tab shows every driver |
| DriversManagement.CountStatuses | frontend/src/components/admin/DriversManagement.jsx:179-185 | `all` is the number of drivers and each status count is at most it |
| DriversManagement.CountsPartition | frontend/src/components/admin/DriversManagement.jsx:179-185 | when every driver has one of the four statuses, the four counts add up to `all` |
| DriversManagement.SetStatusAllEffect | frontend/src/components/admin/DriversManagement.jsx:69 | after the bulk requests, exactly the selected drivers have the new status and every other driver is unchanged |
| DriversManagement.Actions | frontend/src/components/admin/DriversManagement.jsx:466-516 | view and delete for every driver; approve and reject exactly for pending; suspend exactly for approved; reactivate exactly for suspended |
| DriversManagement.ActionsAccepted | frontend/src/components/admin/DriversManagement.jsx:474-509 | every status button offered asks for a status the backend accepts, and a different one from the driver's current status |
| DriversManagement.SendStatusRequests | frontend/src/components/admin/DriversManagement.jsx:69 | one request per selected id in order; all fail exactly when the status is not assignable, changing nothing; otherwise the drivers become `SetStatusAll` of the selection |
| DriversManagement.DriversView.constructor | frontend/src/components/admin/DriversManagement.jsx:14-18 | no rows, no search, the 'all' tab, newest first, nothing selected |
| DriversManagement.DriversView.Fetch | frontend/src/components/admin/DriversManagement.jsx:27-40 | the rows become the admin drivers list; the rest of the state is kept |
| DriversManagement.DriversView.HandleSort | frontend/src/components/admin/DriversManagement.jsx:149-156 | the sort becomes `NextSort` of the old sort |
| DriversManagement.DriversView.HandleSelectAll | frontend/src/components/admin/DriversManagement.jsx:158-164 | the selection becomes the shown ids or nothing, and the header box follows |
| DriversManagement.DriversView.HandleSelectDriver | frontend/src/components/admin/DriversManagement.jsx:166-172 | the selection becomes `Toggled` of the old selection |
| DriversManagement.DriversView.BulkUpdateStatus | frontend/src/components/admin/DriversManagement.jsx:64-77 | nothing happens without a selection or confirmation; otherwise every selected driver gets the status, and on success the selection is cleared and the list fetched again |
| DriversManagementSimple.FilteredDrivers | frontend/src/components/admin/DriversManagementSimple.jsx:70-76 | an order-preserving sub-list with no sort; each shown driver matches the search and the status tab; every driver passing both is shown |
| DriversManagementSimple.FieldlessNeverShown | frontend/src/components/admin/DriversManagementSimple.jsx:71-73 | a driver with no name, email or phone is never shown, not even for an empty search |
| DriversManagementSimple.NamedShownByEmptySearch | frontend/src/components/admin/DriversManagementSimple.jsx:71-74 | a driver with a name is shown by an empty search on the 'all' tab |
| DriversManagementSimple.CountStatuses | frontend/src/components/admin/DriversManagementSimple.jsx:78-84 | `all` is the number of drivers and each status count is at most it |
| DriversManagementSimple.Actions | frontend/src/components/admin/DriversManagementSimple.jsx:279-312 | delete always; approve and reject exactly for pending; suspend exactly for approved; never reactivate or view |
| DriversManagementSimple.ActionsWithinFullScreen | frontend/src/components/admin/DriversManagementSimple.jsx:279-312 | every button here is also on the full screen for the same status; a suspended driver only gets delete |
| UsersManagement.FilteredUsers | frontend/src/components/admin/UsersManagement.jsx:100-110 | an order-preserving sub-list; each shown user matches the search and the dates and lies within the ride bounds; every user passing all tests is shown |
| UsersManagement.NoFilterShowsAll | frontend/src/components/admin/UsersManagement.jsx:101-110 | an empty search with no bounds, every date passing, shows every user |
| UsersManagement.ActiveUsers | frontend/src/components/admin/UsersManagement.jsx:209 | the active count is at most the number of users, and equals it exactly when every user has a ride |
| UsersManagement.ActiveCount | frontend/src/components/admin/UsersManagement.jsx:209 | counting active users gives the list length exactly when every listed user is active |
| UsersManagement.ActiveIffRequested | frontend/src/components/admin/UsersManagement.jsx:209 | a user in the admin list counts as active exactly when some ride in the database was requested by them |
| UsersManagement.DeleteAllEffect | frontend/src/components/admin/UsersManagement.jsx:61 | after the bulk deletes, exactly the selected users are gone and every other user is unchanged |
| UsersManagement.SendDeleteRequests | frontend/src/components/admin/UsersManagement.jsx:61 | one delete per selected id in order; the users become `DeleteAll` of the selection; the other tables are unchanged |
| UsersManagement.UsersView.constructor | frontend/src/components/admin/UsersManagement.jsx:13-23 | no rows, no search, no bounds, newest first, nothing selected |
| UsersManagement.UsersView.Fetch | frontend/src/components/admin/UsersManagement.jsx:29-42 | the rows become the admin users list; the rest of the state is kept |
| UsersManagement.UsersView.HandleSort | frontend/src/components/admin/UsersManagement.jsx:91-98 | the sort becomes `NextSort` of the old sort |
| UsersManagement.UsersView.HandleSelectAll | frontend/src/components/admin/UsersManagement.jsx:127-133 | the selection becomes the shown ids or nothing |
| UsersManagement.UsersView.HandleSelectUser | frontend/src/components/admin/UsersManagement.jsx:135-141 | the selection becomes `Toggled` of the old selection |
| UsersManagement.UsersView.DeleteSelectedUsers | frontend/src/components/admin/UsersManagement.jsx:56-68 | nothing happens without a selection or confirmation; otherwise exactly the selected users are deleted, the selection is cleared and the list fetched again |
| UserDashboard.AfterSelect | frontend/src/pages/user/UserDashboardWithMap.jsx:90-112 | 'pickup' changes only the three pickup fields, 'dropoff' only the three dropoff fields, 'route' only the distance, anything else nothing |
| UserDashboard.SelectionsCommute | frontend/src/pages/user/UserDashboardWithMap.jsx:90-105 | selecting pickup then dropoff gives the same form as dropoff then pickup |
| UserDashboard.EstimatedFare | frontend/src/pages/user/UserDashboardWithMap.jsx:189 | the server's fare for a positive distance, above the base fare, and 0 otherwise |
| UserDashboard.Validate | frontend/src/pages/user/UserDashboardWithMap.jsx:130-138 | refuses when either latitude is falsy, so a latitude of 0 too; then refuses a distance of 0; passes exactly otherwise |
| UserDashboard.Dashboard.constructor | frontend/src/pages/user/UserDashboardWithMap.jsx:21-29 | the form starts empty with distance 0, closed, with no current ride |
| UserDashboard.Dashboard.FetchCurrentRide | frontend/src/pages/user/UserDashboardWithMap.jsx:64-79 | the card shows exactly the ride the server reports as the rider's current ride (their newest pending, accepted or picked-up ride), as stored, and nothing exactly when there is none |
| UserDashboard.Dashboard.HandleLocationSelect | frontend/src/pages/user/UserDashboardWithMap.jsx:90-112 | the form becomes `AfterSelect` of the old form |
| UserDashboard.Dashboard.HandleBookRide | frontend/src/pages/user/UserDashboardWithMap.jsx:127-158 | a refused form sends nothing and changes nothing; otherwise the ride is created from the form with the estimate shown, the card shows the new ride as the current one, and the form closes and is reset; only the rides table changes |
| UserDashboard.Dashboard.HandleCancelRide | frontend/src/pages/user/UserDashboardWithMap.jsx:160-171 | without confirmation nothing happens; a refused cancel changes neither the database nor the card; an accepted one cancels exactly that ride, frees its driver, and refreshes the card to the server's current ride; a pending ride on an up-to-date card is always cancelled; users, admins and transactions never change |
| AdminLogin.Decide | frontend/src/pages/admin/AdminLogin.jsx:33-70 | without saved credentials access is granted under the typed or default email; with them, a blank form or an exact match of both fields is granted as the saved account and anything else refused; unparsable credentials fail; every grant has id 1 and role 'admin' |
| AdminLogin.WrongPasswordRefused | frontend/src/pages/admin/AdminLogin.jsx:39-45 | with saved credentials, a non-empty wrong password is refused whatever the email |
| AdminLogin.BlankFormAdmitted | frontend/src/pages/admin/AdminLogin.jsx:39-57 | with saved credentials, the blank form still opens the saved account |
| AdminLogin.SessionKeepsCredentials | frontend/src/pages/admin/AdminLogin.jsx:56 | opening a session never touches the saved credentials |
| AdminLogin.LoginPage.constructor | frontend/src/pages/admin/AdminLogin.jsx:11-15 | both fields start blank and the page is not loading |
| AdminLogin.LoginPage.HandleChange | frontend/src/pages/admin/AdminLogin.jsx:23-25 | the named field takes the value and the other is kept |
| AdminLogin.LoginPage.HandleSubmit | frontend/src/pages/admin/AdminLogin.jsx:27-81 | the outcome is `Decide` on the stored credentials; a grant logs in with a fresh token and type 'admin'; a refusal leaves the session and storage untouched |
| AdminProfileSettings.Check | frontend/src/components/AdminProfileSettings.jsx:50-61 | passes exactly when the new password is empty, or equals its confirmation and has at least 6 characters; a mismatch is reported before shortness |
| AdminProfileSettings.SavedPasswordLength | frontend/src/components/AdminProfileSettings.jsx:50-68 | every password that passes the check is saved with at least 6 characters |
| AdminProfileSettings.UpdatedUser | frontend/src/components/AdminProfileSettings.jsx:75-79 | the session user takes the form's name and email and keeps every other field |
| AdminProfileSettings.SavedCredentialsAdmitted | frontend/src/components/AdminProfileSettings.jsx:65-72 | saved credentials let their own email and password through the login page, as the saved account |
| AdminProfileSettings.OldPasswordRefused | frontend/src/components/AdminProfileSettings.jsx:65-72 | after a password change, any other non-empty password is refused at the login page |
| AdminProfileSettings.ProfileForm.constructor | frontend/src/components/AdminProfileSettings.jsx:9-15 | every field starts blank |
| AdminProfileSettings.ProfileForm.SyncFromUser | frontend/src/components/AdminProfileSettings.jsx:23-31 | with a user, name and email come from it with 'Admin' and 'admin@yango.com' as defaults; the password fields stay |
| AdminProfileSettings.ProfileForm.HandleSubmit | frontend/src/components/AdminProfileSettings.jsx:44-100 | a failing check changes nothing but the message; otherwise the credentials are saved, the session user takes the name and email under the stored token with type 'admin', and the password fields are cleared while name and email are kept |

## Left out

- Socket.IO broadcasts (`global.io.emit`), toasts, navigation, timers, `console` logging and every 500 error path are not modelled. They only report, and the model's writes never fail.
- getUserRides and getRevenueAnalytics are not modelled. They are plain joins and date-grouped sums over the same tables, and they need calendar arithmetic.
- SQL `created_at` ordering is modelled as id order. Rows are inserted with increasing ids, so "newest" means the highest id.
- Dates and "today" are parameters (`isToday`, `datePasses`). This covers the dashboard's CURDATE counts, the date filters of the list screens and the export's date column. Calendar arithmetic is not modelled.
- Fares, distances and ratings are mathematical reals. DECIMAL columns returned as strings, floating-point rounding and `toFixed` formatting are not modelled.
- `toLowerCase` is modelled on ASCII letters only. Unicode case mapping is not modelled.
- Haversine distance, the Google geocoding and directions calls and the map components are not modelled. They are floating-point trigonometry and foreign services; the map reports its results to the dashboard as `Selected` values.
- The resulting sort order of the list screens is not modelled. The comparators never return 0 and compare values of mixed types. Filtered lists are stated before sorting, and the sort state itself is modelled.
- DriversManagement.DriversView.HandleSelectAll: the selection is stated in the unsorted filter order; the source selects in the sorted order of the screen.
- UsersManagement.UsersView.HandleSelectAll: the selection is stated in the unsorted filter order; the source selects in the sorted order of the screen.
- `Promise.all` in the bulk actions is modelled as requests sent one after another. A failed request in the source leaves the selection and rows as they were.
- DriversManagement.DriversView.BulkUpdateStatus: a failed run is stated only for an unassignable status, the one way the backend refuses; network failures are not modelled.
- The exports of the users and drivers screens, and the single-row status and delete buttons that call the same backend handlers, are not modelled. They repeat the rides export and the bulk actions for one row.
- Filter inputs are taken as already-parsed numbers (`Option<real>`, `Option<int>`). A bound that `parseFloat` or `parseInt` turns into NaN, which makes the source filter out every row, is not modelled.
- The rides table has no `payment_method` column in the modelled schema. Fetched rows carry none, so a payment filter other than 'all' hides every fetched row, as `undefined === 'cash'` does in the source.
- JSON values in the session store are strings and integers only. A non-text `name` or `email` on the session user falls back to the default in AdminProfileSettings.ProfileForm.SyncFromUser, where the source would keep a truthy number.
- AdminLogin.Decide: saved credentials are assumed to parse to three strings. A stored object that lacks a field, where the source compares against `undefined`, is not modelled.
- The clock reading in the admin token is the parameter `now`. `Date.now()` itself is not modelled.
- Concurrent requests, the accept and cancel races, and the non-atomic completion block are modelled as sequential handler calls.
- bcrypt and jwt are uninterpreted parameters; token expiry is part of `verify`.

