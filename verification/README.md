# Telehealth client: a Dafny model of its state logic

The client is a React single-page application for patients and providers,
backed by a Supabase store. Almost all of it renders screens or calls the
network; what this project models is the logic in between: how each hook's
local state changes in answer to a user action and to the store's reply,
how the store's queries filter and order rows, and the string, path and
arithmetic rules the screens apply.

Every hook is a record of sequences, and every action is a pure function
from the state (and the store's reply, or the store itself) to the next
state and how the action ended: `Resolved`, or `Rejected` with the error an
`async` handler throws. The remote store is an in-memory set of tables
(`Database.Tables`) for appointments, favourites, messages and packages;
every call into it may fail, and that failure is a parameter (`fault`). A
hook whose store functions are not tables here takes the store's reply as
a parameter (`Result<T>`). The insurance benefits hook calls four store
functions that the store module does not define; it is modelled twice: as
written, where each of those calls throws a `TypeError`, and against a
store that has them. Clock readings, dates and random ids are
parameters too. Ratings are in tenths of a star (4.5 is 45).

The modules follow the program:

- `Wrappers`, `Text`, `Keyed`, `Sorting`, `Numbers`: the shared shapes
  (optional values, replies, completions, JavaScript's `||`), the ASCII
  string operations, the array idioms (`filter`, replace-by-id, `find`,
  counting, summing), stable sorting on a key, and `Number`/`parseInt`.
- `Database`: the store's appointment, favourite, message and package
  operations.
- Booking: `BookingFlow` (the draft store), `ConfirmDetails`,
  `AppointmentsHook`, `ProviderBookingsHook`, `BookingCard`,
  `BookingDisplay`, `ProviderBookingsPage`, `PatientBookingPage`,
  `ProviderHome`.
- Providers and favourites: `ProviderProfile`, `PackageFees`,
  `ProvidersHook`, `ProviderService`, `ProviderDetails`, `ProviderPosts`,
  `FavoritesHook`, `FavoritesPage`.
- Insurance: `InsuranceHook`, `InsuranceForm`, `InsurancePage`.
- Messages and notifications: `MessagesHook`, `MessagingPages`, `ChatView`,
  `Notifications`.
- Patient records: `PatientProfile`, `PatientRows`, `MedicalRecords`,
  `EmergencyContacts`, `UploadDocument`.
- Sign-in and navigation: `Auth`, `Navigation`.

## Rules the code does not enforce

Some rules a booking system is expected to keep are not in this code. The
model follows the code, and lemmas record each gap.

- Appointments have no terminal states. The store's status update and the
  hooks move any appointment to any status, and nothing checks whether the
  user is the patient or the provider of the appointment
  (`Database.CompleteAfterCancelSucceeds`, `AppointmentsHook.CompleteAfterCancel`,
  `ProviderBookingsHook.AnyTransitionAllowed`). The only "upcoming only" rule is
  the booking card's button guard (`BookingCard.Buttons`).
- Appointment listings are ordered by date ascending only. The time is never
  compared, so on one day a later appointment can be listed before an
  earlier one (`Database.TimeIsNotASortKey`).
- The booking flow never creates an appointment: "Book now" only opens the
  popup (`ConfirmDetails.BookingCreatesNoAppointment`).

## Model

| member | source | states |
|---|---|---|
| Numbers.ToNumber | src/components/patientprofile/settings/insurance/AddInsuranceBenefitModal.tsx:80-88 | `Number` on form text: blank text reads as 0, a run of digits reads as its value, and only a leading minus gives a negative number |
| Numbers.ParseInt | src/components/patientprofile/settings/insurance/InsuranceBenefitsPage.tsx:182-183 | `parseInt` is NaN exactly when, after leading white space and one optional sign, no digit of the base follows: a hexadecimal digit after a `0x` or `0X` prefix, a decimal digit otherwise |
| Numbers.Magnitude | src/components/patientprofile/settings/insurance/InsuranceBenefitsPage.tsx:182-183 | what is read after the sign is NaN exactly when no digit of the base follows the prefix, if any |
| Numbers.HexPrefixRead | src/components/patientprofile/settings/insurance/InsuranceBenefitsPage.tsx:182-183 | `0x10` reads as 16 and `-0XfF` as -255, while `0x` and `0xg` read as NaN |
| Numbers.NumbersReadNatToString | src/components/patientprofile/settings/insurance/InsuranceBenefitsPage.tsx:182-183 | both readers read a printed whole amount back as that amount |
| Numbers.ParseIntTruncates | src/components/patientprofile/settings/insurance/InsuranceBenefitsPage.tsx:182-183 | on an amount the validator accepts and that starts with a digit, the saved value is the validated value rounded down |
| Numbers.FractionsPartWays | src/components/patientprofile/settings/insurance/AddInsuranceBenefitModal.tsx:80 | "0.5" validates as 0.5 but saves as 0, and ".5" validates but is NaN to the save |
| Database.GetAppointments | src/lib/supabase.ts:316-342 | a failure rejects; otherwise exactly the rows where the user is patient or provider, narrowed to the status only when one is given, as a permutation of those rows, in ascending date |
| Database.CreateAppointment | src/lib/supabase.ts:344-353 | a failure rejects and leaves the table; otherwise one row is appended carrying every given field plus the store's id and timestamps, and that row is the reply |
| Database.CreatedIsListed | src/lib/supabase.ts:316-353 | a created appointment is then listed for its patient under its status and for its provider, and a failed create changes no listing |
| Database.UpdateAppointmentStatus | src/lib/supabase.ts:355-366 | succeeds iff there is no failure and a row has the id; the reply carries the id and new status; exactly the rows with the id change, and only their status; other tables untouched; a rejection changes nothing |
| Database.CompleteAfterCancelSucceeds | src/lib/supabase.ts:355-366 | the update has no guard on the current status: a cancelled appointment can then be completed |
| Database.TimeIsNotASortKey | src/lib/supabase.ts:336 | the listing orders by date only: on one date an appointment with a later time can be listed before one with an earlier time |
| Database.AddFavorite | src/lib/supabase.ts:568-580 | rejects iff a failure; afterwards the pair is present; an existing pair (unique violation 23505, ignored) resolves with no row and no change; a new row is appended with the store's id |
| Database.AddExistingIsNoOp | src/lib/supabase.ts:568-580 | adding a pair that is already a favourite changes nothing and replies with no row |
| Database.RemoveFavorite | src/lib/supabase.ts:582-591 | rejects iff a failure; otherwise replies true and the table keeps exactly the rows of other pairs |
| Database.CheckIsFavorite | src/lib/supabase.ts:593-603 | a failure rejects; a reply of true iff some row holds the pair |
| Database.CountPositiveIff | src/lib/supabase.ts:593-603 | a pair has a positive row count iff a row holds it, which is what `!!data` reads |
| Database.PairCountAtMostOne | src/lib/supabase.ts:578 | under the unique constraint a pair matches at most one row |
| Database.CheckUnderUniqueReplies | src/lib/supabase.ts:593-603 | under the unique constraint `maybeSingle` never rejects on its own |
| Database.FavoriteOperationsKeepUnique | src/lib/supabase.ts:568-591 | adding and removing favourites keep the pair unique |
| Database.RemoveThenCheck | src/lib/supabase.ts:582-603 | after a successful remove, the check replies false |
| Database.GetMessages | src/lib/supabase.ts:376-385 | a failure rejects; otherwise exactly the messages between the two users in either direction, each as often as it is stored, oldest first |
| Database.SendMessage | src/lib/supabase.ts:387-396 | rejects iff a failure, then nothing changes; otherwise the message with the store's id and time is appended and is the reply |
| Database.MarkMessagesAsRead | src/lib/supabase.ts:398-408 | rejects iff a failure; exactly the unread messages from the sender to the user become read, nothing else changes, and none remains unread |
| Database.GetProviderPackages | src/lib/supabase.ts:472-481 | a failure rejects; otherwise exactly the provider's packages, each as often as it is stored, cheapest first |
| BookingFlow.SetCategory | src/hooks/useBookingFlow.ts:57 | the category is set and every other field is kept |
| BookingFlow.SetProvider | src/hooks/useBookingFlow.ts:59 | the provider is set and every other field is kept |
| BookingFlow.SetAppointmentType | src/hooks/useBookingFlow.ts:61-62 | the appointment type is set and every other field is kept |
| BookingFlow.SetPackageDetails | src/hooks/useBookingFlow.ts:64-65 | package and duration are set together and every other field is kept |
| BookingFlow.SetAppointmentDetails | src/hooks/useBookingFlow.ts:67-77 | exactly date, time, concern and address are overwritten |
| BookingFlow.Reset | src/hooks/useBookingFlow.ts:42-79 | a reset restores duration 30, no selections and empty texts, and the draft is then incomplete |
| BookingFlow.IsCompleteIff | src/hooks/useBookingFlow.ts:82-92 | complete iff a non-empty category, a provider, a type, a package, a non-empty date and a non-empty time |
| BookingFlow.CompletenessIgnoresConcernAddressDuration | src/hooks/useBookingFlow.ts:84-91 | concern, address and duration never decide completeness |
| BookingFlow.SettersLastWriteWins | src/hooks/useBookingFlow.ts:57-77 | a second call of any setter overrides the first |
| BookingFlow.EmptyCategoryIncomplete | src/hooks/useBookingFlow.ts:85 | an empty category is falsy, so the draft is incomplete whatever else is set |
| BookingFlow.WizardCompletes | src/hooks/useBookingFlow.ts:54-92 | walking every step from a reset draft completes it iff the category, date and time are non-empty |
| BookingFlow.SkippedStepIncomplete | src/hooks/useBookingFlow.ts:84-91 | skipping the provider, type, package or details step leaves the draft incomplete |
| ConfirmDetails.Redirect | src/components/patientprofile/providerservice/confirmdetails/ConfirmDetailsPage.tsx:41-46 | the page redirects iff the draft is incomplete, and then to "/patient/category" |
| ConfirmDetails.RenderGuardWeakerThanRedirect | src/components/patientprofile/providerservice/confirmdetails/ConfirmDetailsPage.tsx:41-51 | a complete draft always renders; a draft with only provider and package renders and redirects at once |
| ConfirmDetails.Patient | src/components/patientprofile/providerservice/confirmdetails/ConfirmDetailsPage.tsx:62-68 | the shown patient is the fixed "Esther Howard", "Male", 26, whose problem is the draft's concern |
| ConfirmDetails.Popup | src/components/patientprofile/providerservice/confirmdetails/ConfirmDetailsPage.tsx:82-127 | the popup always shows booking id "20231104", with the provider's name and the draft's date and time |
| ConfirmDetails.BookNow | src/components/patientprofile/providerservice/confirmdetails/ConfirmDetailsPage.tsx:87-106 | the popup opens and nothing else changes, the store included; the summary's amount and total are the package price or 0, with the draft's provider, patient, date, time, duration, package title and the payment method |
| ConfirmDetails.ClosePopup | src/components/patientprofile/providerservice/confirmdetails/ConfirmDetailsPage.tsx:112-114 | closing the popup keeps the draft, the payment method and the store |
| ConfirmDetails.DoneFromPopup | src/components/patientprofile/providerservice/confirmdetails/ConfirmDetailsPage.tsx:116-120 | done closes the popup, resets the draft (now incomplete), goes to "/patient/category" and leaves the store |
| ConfirmDetails.BookingCreatesNoAppointment | src/components/patientprofile/providerservice/confirmdetails/ConfirmDetailsPage.tsx:87-120 | booking, closing and booking again, or finishing, never changes the stored appointments |
| AppointmentsHook.Start | src/hooks/useAppointments.ts:9-12 | the hook starts with an empty list, loading, no error, and the initial status filter |
| AppointmentsHook.Fetch | src/hooks/useAppointments.ts:14-36 | no user empties the list; a failed fetch keeps the list and records the error; a successful one takes the store's listing for the current status and clears the error; loading always ends |
| AppointmentsHook.SetStatus | src/hooks/useAppointments.ts:12 | changing the filter keeps the loaded list until the next fetch |
| AppointmentsHook.WithStatus | src/hooks/useAppointments.ts:45-51 | the local patch keeps the length; entries with the id take the status, every other entry is unchanged |
| AppointmentsHook.Move | src/hooks/useAppointments.ts:38-76 | no user resolves with nothing changed; the action resolves iff the store update succeeds, then store and list are both patched; a rejection leaves both as they were |
| AppointmentsHook.Cancel | src/hooks/useAppointments.ts:38-56 | after success the entries with the id are cancelled, the others unchanged, and no field but status changes; a rejection changes nothing |
| AppointmentsHook.Complete | src/hooks/useAppointments.ts:58-76 | after success the entries with the id are completed, the others unchanged, and no field but status changes; a rejection changes nothing |
| AppointmentsHook.NoUserBehaviour | src/hooks/useAppointments.ts:16-20 | without a user the fetch ends with an empty list and both actions resolve with nothing changed |
| AppointmentsHook.FailureRethrown | src/hooks/useAppointments.ts:52-55 | a store failure is rethrown with the store's error and changes neither list nor store |
| AppointmentsHook.CompleteAfterCancel | src/hooks/useAppointments.ts:58-76 | nothing checks the current status: a cancelled appointment can be completed, locally and in the store |
| AppointmentsHook.LocalAgreesWithStore | src/hooks/useAppointments.ts:41-51 | after a successful action every local entry and stored row with the id carry the same status |
| ProviderBookingsHook.MockBookings | src/hooks/useProviderBookings.ts:85-210 | four samples for the provider, or the two upcoming, one completed or one cancelled when a status is given; every sample belongs to the provider and has the status asked for |
| ProviderBookingsHook.MockBookingsContents | src/hooks/useProviderBookings.ts:86-209 | the samples are ids 1 to 4 in order, with statuses upcoming, upcoming, completed, cancelled and fees 150, 120, 180, 150; the upcoming filter keeps ids 1 and 2 |
| ProviderBookingsHook.Fetch | src/hooks/useProviderBookings.ts:15-46 | loading ends; no user empties the list; a list reply is shown; no list falls back to the samples without an error; a failure falls back to the samples and records the error |
| ProviderBookingsHook.UpdateBookingStatus | src/hooks/useProviderBookings.ts:49-72 | without a user it throws; a store failure is rethrown with list and store unchanged; otherwise the store is written, exactly the bookings with the id take the new status, and it resolves true |
| ProviderBookingsHook.SetStatus | src/hooks/useProviderBookings.ts:12-79 | the status filter changes and the list stays until the next fetch |
| ProviderBookingsHook.AnyTransitionAllowed | src/hooks/useProviderBookings.ts:49-72 | an update to any status succeeds for any stored booking, whatever its current status |
| BookingCard.StatusColor | src/components/providerprofile/bookings/BookingCard.tsx:24-35 | blue iff "upcoming", green iff "completed", red iff "cancelled", grey iff any other text |
| BookingCard.StatusColorsDistinct | src/components/providerprofile/bookings/BookingCard.tsx:24-35 | no stored status shows grey, and two statuses share a colour iff they are equal |
| BookingCard.StatusLabel | src/components/providerprofile/bookings/BookingCard.tsx:42 | the label has the status's length, an upper-case first letter that lower-cases to the status's first letter, and the status's remaining letters |
| BookingCard.StatusLabels | src/components/providerprofile/bookings/BookingCard.tsx:42 | the labels are "Upcoming", "Completed" and "Cancelled" |
| BookingCard.Buttons | src/components/providerprofile/bookings/BookingCard.tsx:81-100 | buttons show iff the booking is upcoming and both handlers are passed, and then they are Cancel and Complete |
| BookingCard.Click | src/components/providerprofile/bookings/BookingCard.tsx:84-97 | a press reaches a handler iff its button is rendered; the handler gets the booking id, and only for an upcoming booking |
| BookingDisplay.BookingNumber | src/components/providerprofile/bookings/ProviderBookingsPage.tsx:97 | the number is "#" followed by the id's first five characters, or the whole id when it is shorter |
| BookingDisplay.ShortTime | src/components/providerprofile/bookings/ProviderBookingsPage.tsx:101 | the time is cut to a prefix of at most five characters, exactly five when the time has that many |
| BookingDisplay.NumberIffPrefix | src/components/providerprofile/home/ProviderHomePage.tsx:19 | two bookings share a number iff their ids share the first five characters, so distinct ids can collide |
| BookingDisplay.ShortIdRecoverable | src/components/providerprofile/home/ProviderHomePage.tsx:19 | an id of at most five characters can be read back from its number |
| BookingDisplay.ShortTimeIdempotent | src/components/providerprofile/home/ProviderHomePage.tsx:23 | cutting a time twice is cutting it once |
| ProviderBookingsPage.Start | src/components/providerprofile/bookings/ProviderBookingsPage.tsx:11-18 | the page opens on the upcoming tab with the hook asked for upcoming bookings, loading and empty |
| ProviderBookingsPage.HandleTabChange | src/components/providerprofile/bookings/ProviderBookingsPage.tsx:21-24 | the tab and the hook's status filter move together; the loaded list stays |
| ProviderBookingsPage.CardFor | src/components/providerprofile/bookings/ProviderBookingsPage.tsx:95-103 | the card shows the booking's id, status and patient name, the booking number cut from the id and the time cut to hours and minutes |
| ProviderBookingsPage.Requested | src/components/providerprofile/bookings/ProviderBookingsPage.tsx:29-38 | the cancel button asks for cancelled and the complete button for completed, and nothing else asks for either |
| ProviderBookingsPage.HandleAction | src/components/providerprofile/bookings/ProviderBookingsPage.tsx:27-43 | the hook's update runs with the requested status; a failure becomes the matching alert and the handler still resolves |
| ProviderBookingsPage.ButtonsOnlyOnUpcomingTab | src/components/providerprofile/bookings/ProviderBookingsPage.tsx:66-106 | after any fetch for the active tab, every card carries buttons exactly when the tab is upcoming, samples included |
| ProviderBookingsPage.StoreListingMatchesTab | src/lib/supabase.ts:316-342 | the store's listing for a status holds only bookings with that status |
| PatientBookingPage.Start | src/components/patientprofile/booking/BookingPage.tsx:22-35 | the page opens on the upcoming tab with the hook filtering by it, and the navigation shows the booking tab |
| PatientBookingPage.SelectTab | src/components/patientprofile/booking/BookingPage.tsx:33-122 | picking a status tab makes the hook filter by that status and leaves the loaded list alone |
| PatientBookingPage.Dispatch | src/components/patientprofile/booking/BookingPage.tsx:37-49 | reschedule changes nothing; cancel goes through the hook, and a failure becomes the cancel alert |
| PatientBookingPage.PatientNeverCompletes | src/components/patientprofile/booking/BookingPage.tsx:37-165 | whatever cards the patient presses, no appointment becomes completed that was not completed before |
| ProviderHome.Entry | src/components/providerprofile/home/ProviderHomePage.tsx:17-24 | an upcoming patient carries the booking's id, the booking number cut from it, the joined patient name and the time cut to hours and minutes |
| ProviderHome.Strip | src/components/providerprofile/home/ProviderHomePage.tsx:15-48 | no bookings show the two sample patients; otherwise the first one or two bookings, in order, each as its entry |
| ProviderHome.StripShape | src/components/providerprofile/home/ProviderHomePage.tsx:15-48 | the strip always holds one or two patients, led by the first bookings |
| ProviderHome.InitialsFrom | src/components/providerprofile/home/ProviderHomePage.tsx:128 | the initials are no longer than the name, contain no space and use only the name's characters |
| ProviderHome.Initials | src/components/providerprofile/home/ProviderHomePage.tsx:128 | the same for a whole name |
| ProviderHome.InitialsOfOneWord | src/components/providerprofile/home/ProviderHomePage.tsx:128 | a name without spaces gives its first character |
| ProviderHome.InitialsSplitAtSpace | src/components/providerprofile/home/ProviderHomePage.tsx:128 | the initials of two parts joined by a space are the initials of each part, in order |
| ProviderHome.TwoWordNames | src/components/providerprofile/home/ProviderHomePage.tsx:128 | a first and last name give their two first letters |
| ProviderHome.AvatarInitials | src/components/providerprofile/home/ProviderHomePage.tsx:68-187 | without a name the fallback reads "D", the initial of "Dr"; otherwise the name's initials |
| ProviderHomeSamples.SamplePatientInitials | src/components/providerprofile/home/ProviderHomePage.tsx:29-128 | the sample patients' fallbacks read "DR" and "LA" |
| ProviderHome.DropSpaces | src/components/providerprofile/home/ProviderHomePage.tsx:217 | the result has no white space, is no longer, and text without white space is unchanged |
| ProviderHome.DropSpacesAppend | src/components/providerprofile/home/ProviderHomePage.tsx:217 | dropping white space from joined text is dropping it from each part |
| ProviderHome.Hashtag | src/components/providerprofile/home/ProviderHomePage.tsx:217 | a hashtag is `#` followed by the category without its white space |
| ProviderHome.Hashtags | src/components/providerprofile/home/ProviderHomePage.tsx:215-219 | the line is empty exactly when there are no categories, and one category gives its hashtag alone |
| ProviderHome.OneSpacePerGap | src/components/providerprofile/home/ProviderHomePage.tsx:217 | the line has exactly one space fewer than there are categories |
| ProviderHome.TwoWordCategoryTags | src/components/providerprofile/home/ProviderHomePage.tsx:217 | a two-word category and a one-word one show as `#` and the two words run together, a space, then `#` and the third word |
| ProviderProfile.TargetId | src/hooks/useProviderProfile.ts:14 | a non-empty provider id wins; otherwise the signed-in user's id; otherwise the empty id |
| ProviderProfile.Guard | src/hooks/useProviderProfile.ts:83-88 | a mutation stops quietly exactly when nobody is signed in or there is no target, proceeds exactly when the user is the target, and otherwise throws its own message |
| ProviderProfile.FetchProfile | src/hooks/useProviderProfile.ts:17-41 | loading ends; no target clears the profile; a reply sets the profile and clears the error; a failure records it and clears the profile; packages and reviews are untouched |
| ProviderProfile.FetchPackages | src/hooks/useProviderProfile.ts:44-60 | no target empties the list; a reply sets it to the target's stored packages; a failure keeps it; nothing else changes |
| ProviderProfile.FetchReviews | src/hooks/useProviderProfile.ts:63-79 | no target empties the reviews; a reply sets them; a failure keeps them; nothing else changes |
| ProviderProfile.FetchesCommute | src/hooks/useProviderProfile.ts:17-79 | the three effects end in the same state whichever settles first |
| ProviderProfile.NoTargetNothingShown | src/hooks/useProviderProfile.ts:14-67 | with neither provider id nor user there is no profile, no package and no review |
| ProviderProfile.Merge | src/hooks/useProviderProfile.ts:100 | the spread keeps every field of the reply and the fields of the old profile the reply does not name |
| ProviderProfile.MergeIdempotent | src/hooks/useProviderProfile.ts:100 | merging the same reply twice is merging it once |
| ProviderProfile.UpdateProviderProfile | src/hooks/useProviderProfile.ts:82-106 | the update as its comment intends: a stopped or refused update changes nothing and resolves empty or throws; a failed call is rethrown; otherwise the reply is merged into the loaded profile or, with none loaded, becomes the created profile, and is returned |
| ProviderProfile.UpdateAsWritten | src/hooks/useProviderProfile.ts:82-106 | as written: the owner's update with no profile loaded throws because the store service has no `addProviderProfile`, is rethrown, and leaves the state; every other case is the corrected update |
| ProviderProfile.AsWrittenNeverCreates | src/hooks/useProviderProfile.ts:93-96 | as written, with no profile loaded the owner's update rejects and leaves no profile, whatever the store would answer |
| ProviderProfile.CorrectedCreatesThenMerges | src/hooks/useProviderProfile.ts:93-101 | with the creation, a first update gives the created profile, a second merges into it, and the as-written update agrees from then on |
| ProviderProfile.AddPackage | src/hooks/useProviderProfile.ts:109-128 | a stopped, refused or failed add changes nothing; otherwise the stored row is appended and returned |
| ProviderProfile.PackageToInsert | src/hooks/useProviderProfile.ts:118-121 | the insert is the form data with the target as provider, and nothing else differs |
| ProviderProfile.UpdatePackage | src/hooks/useProviderProfile.ts:131-147 | a stopped, refused or failed update changes nothing; otherwise every package with the id becomes the stored row, the rest stay in place |
| ProviderProfile.DeletePackage | src/hooks/useProviderProfile.ts:150-166 | a stopped, refused or failed delete changes nothing; otherwise exactly the packages with the id go, the rest keep their order, and it resolves true |
| ProviderProfile.OnlyTheOwnerMutates | src/hooks/useProviderProfile.ts:86-156 | on another provider's profile every mutation throws its message and changes nothing; signed out, a delete resolves empty |
| ProviderProfile.AddThenDeleteRestores | src/hooks/useProviderProfile.ts:122-160 | adding a package under a fresh id and deleting it gives the list back |
| PackageFees.AddToGroups | src/components/providerprofile/package/PackageFeesPage.tsx:79-85 | one reduce step appends the package to its type's group, or opens a new group at the end for a new type; keys stay distinct and no other group changes |
| PackageFees.GroupByType | src/components/providerprofile/package/PackageFeesPage.tsx:79-85 | the groups' keys are distinct |
| PackageFees.GroupByTypeCorrect | src/components/providerprofile/package/PackageFeesPage.tsx:79-149 | each group holds exactly the packages of its type, in input order, and every package's type has a group |
| PackageFees.NoGroupsIffNoPackages | src/components/providerprofile/package/PackageFeesPage.tsx:79-85 | there are no sections exactly when there are no packages |
| PackageFees.SectionTitle | src/components/providerprofile/package/PackageFeesPage.tsx:87-100 | the four known types get their titles; any other type text is its own title |
| PackageFees.PackageIcon | src/components/providerprofile/package/PackageFeesPage.tsx:63-76 | the fallback icon is used exactly for the unknown types; voice and message get their own icons |
| PackageFees.StoredTypesAreKnown | src/components/providerprofile/package/PackageFeesPage.tsx:63-100 | a stored package's type always has its own icon and a title different from the raw text |
| PackageFees.HandleEdit | src/components/providerprofile/package/PackageFeesPage.tsx:21-27 | a listed id opens the edit popup on a package with that id; an unknown id changes nothing |
| PackageFees.CloseEdit | src/components/providerprofile/package/PackageFeesPage.tsx:29-32 | the edit popup closes and no package is selected; nothing else changes |
| PackageFees.SavePackage | src/components/providerprofile/package/PackageFeesPage.tsx:38-47 | the hook's update runs on the edited id; if it settles the popup closes, if it throws the popup stays and the failure is alerted |
| PackageFees.SaveNewPackage | src/components/providerprofile/package/PackageFeesPage.tsx:53-61 | the hook's add runs; if it settles the add popup closes, if it throws it stays and the failure is alerted |
| PackageFees.EditThenSaveReplaces | src/components/providerprofile/package/PackageFeesPage.tsx:21-47 | editing one's own package and saving closes the popup and puts the stored row in that package's place |
| PackageFees.ForeignSaveAlerts | src/components/providerprofile/package/PackageFeesPage.tsx:38-47 | saving a package of another provider's profile changes nothing and alerts |
| ProvidersHook.Start | src/hooks/useProviders.ts:7-15 | the hook starts loading, with no providers or favourites, the default order, no search, and the caller's category when it is truthy, else none |
| ProvidersHook.ListProviders | src/lib/supabase.ts:234-254 | the provider query lists exactly the stored providers of the category, when one is given, whose name or speciality includes the search term in any letter case, when one is given |
| ProvidersHook.NoFilterListsAll | src/lib/supabase.ts:234-254 | with neither a category nor a search term every stored provider is listed, in order |
| ProvidersHook.SearchNarrows | src/lib/supabase.ts:243-249 | a search term only narrows the list, and under a category only that category's providers appear |
| ProvidersHook.FetchProviders | src/hooks/useProviders.ts:18-43 | a list reply is taken whole; a reply without a list empties the providers; a rejection empties them and records the error; loading ends either way and the filters, favourites and order stay |
| ProvidersHook.FetchedProvidersMatchFilters | src/hooks/useProviders.ts:18-43 | fetched from the store, the hook holds a provider exactly when it is stored and passes the hook's current category and search filters |
| ProvidersHook.SortedProviders | src/hooks/useProviders.ts:90-100 | the shown list is a permutation of the fetched one; by rating it is descending, by price ascending, counting a missing value as 0; default and distance keep the fetched order |
| ProvidersHook.StoredFavorites | src/lib/supabase.ts:552-566 | the favourites query returns exactly the favourite rows of the patient |
| ProvidersHook.ProviderIds | src/hooks/useProviders.ts:56 | the ids list has one entry per row, the row's provider id, in order |
| ProvidersHook.FetchFavorites | src/hooks/useProviders.ts:46-68 | signed out, or on a reply without a list or a rejection, the favourites are empty; otherwise they are the provider ids of the rows in order; nothing else changes |
| ProvidersHook.FetchedFavoritesAgree | src/hooks/useProviders.ts:46-68 | favourites fetched from the store hold exactly the providers the store pairs with the patient |
| ProvidersHook.ToggleFavorite | src/hooks/useProviders.ts:71-87 | signed out or on a rejection nothing changes; otherwise a present id is removed from the store and the list, an absent one is added to the store and appended, so membership flips |
| ProvidersHook.ToggleKeepsAgreement | src/hooks/useProviders.ts:71-87 | a toggle keeps the local favourites in agreement with the store, whether the store accepts it or not |
| ProvidersHook.ToggleTwiceRestoresMembership | src/hooks/useProviders.ts:71-87 | two accepted toggles of the same provider restore its membership |
| ProviderService.CategoryEffect | src/components/patientprofile/providerservice/ProviderServicePage.tsx:38-42 | a truthy route category becomes the hook's category filter, leaving search and order alone; otherwise the hook is untouched |
| ProviderService.MountFiltersByRoute | src/components/patientprofile/providerservice/ProviderServicePage.tsx:23-42 | on mount the route effect agrees with the hook's start, and the filter is empty exactly when the route has no truthy category |
| ProviderService.TailStart | src/components/patientprofile/providerservice/ProviderServicePage.tsx:63 | finds where the pattern `/\/providers\/[^/]+$/` matches, and reports no match exactly when it matches nowhere |
| ProviderService.ClickPath | src/components/patientprofile/providerservice/ProviderServicePage.tsx:60-65 | a card click rewrites a trailing `/providers/<segment>` to `/providers/<category>/selectedprofile` and leaves any other address as it is |
| ProviderService.TailIsUnique | src/components/patientprofile/providerservice/ProviderServicePage.tsx:63 | the pattern can match at one index only, the one ending at the last `/` |
| ProviderService.BackPath | src/components/patientprofile/providerservice/ProviderServicePage.tsx:67-72 | going back takes out one `/selectedprofile` and leaves an address without it unchanged |
| ProviderService.Render | src/components/patientprofile/providerservice/ProviderServicePage.tsx:45-97 | the list shows exactly when neither the address names the profile route nor a provider is selected; the profile shows the selected provider, else the first listed; with neither it shows the loading state |
| ProviderService.ClickCard | src/components/patientprofile/providerservice/ProviderServicePage.tsx:60-65 | a card click selects the provider and rewrites the address, keeping the list and category |
| ProviderService.BackFromProfile | src/components/patientprofile/providerservice/ProviderServicePage.tsx:67-72 | going back clears the selection and rewrites the address, keeping the list and category |
| ProviderService.ClickShowsChosen | src/components/patientprofile/providerservice/ProviderServicePage.tsx:60-97 | after a card click the page shows exactly the chosen provider |
| ProviderService.ClickThenBackRestores | src/components/patientprofile/providerservice/ProviderServicePage.tsx:60-72 | opening a profile from `/providers/<category>` and going back returns to the same address and to the list |
| ProviderService.MissingCategoryPrintsUndefined | src/components/patientprofile/providerservice/ProviderServicePage.tsx:63 | without a route category the rewritten address names `undefined` as its category |
| ProviderService.ShowProvider | src/components/patientprofile/providerservice/ProviderServicePage.tsx:99-116 | the profile record takes description, picture and address under JavaScript's or-operator with their defaults and every other field as listed |
| ProviderService.UnratedShownDifferently | src/components/patientprofile/providerservice/ProviderServicePage.tsx:107 | a rating of 0 shows as 0 here while the provider-details hook shows 4.5 stars |
| ProviderDetails.ToDetailed | src/hooks/useProviderDetails.ts:34-49 | every field of the display record is the stored value when truthy and its default otherwise; distance, time, availability and hours are fixed |
| ProviderDetails.FalsyFieldsTakeDefaults | src/hooks/useProviderDetails.ts:36-48 | a rating of 0 shows as 4.5 stars, a fee of 0 stays 0, and an empty name shows the default name |
| ProviderDetails.TruthyFieldsShown | src/hooks/useProviderDetails.ts:36-40 | a non-zero rating and a non-empty name show as stored |
| ProviderDetails.Fetch | src/hooks/useProviderDetails.ts:17-64 | loading ends; no target clears both records; a failure clears both and records the error; a reply with data sets both and clears the error; a reply without data keeps both and clears the error |
| ProviderDetails.UserPart | src/hooks/useProviderDetails.ts:77-83 | exactly the updated keys among name, e-mail, phone and avatar, with their values |
| ProviderDetails.ProviderPart | src/hooks/useProviderDetails.ts:77-83 | exactly the other updated keys, with their values |
| ProviderDetails.PartitionExact | src/hooks/useProviderDetails.ts:77-83 | the two parts share no key and together give back the updates |
| ProviderDetails.UpdateProviderProfile | src/hooks/useProviderDetails.ts:67-126 | no target returns null untouched; the writes made are exactly the non-empty parts, user profile first, the provider part only when the user-profile write did not fail; a failed write or re-read is rethrown, the first failure in that order, and keeps both records; success takes the re-read provider and rebuilds the display record when it has data |
| ProviderDetails.OneTablePerKind | src/hooks/useProviderDetails.ts:77-93 | a name change writes only the user-profile table and a fee change only the provider table |
| ProviderDetails.EmptyUpdateOnlyRereads | src/hooks/useProviderDetails.ts:86-117 | an empty update writes nothing and still re-reads and shows the provider |
| ProviderPosts.MockPosts | src/hooks/useProviderPosts.ts:112-139 | two sample posts, ids "1" and "2", both belonging to the target, with 2456 likes and 123 comments, then 1872 and 95 |
| ProviderPosts.Fetch | src/hooks/useProviderPosts.ts:28-52 | loading ends; no target, no posts; otherwise the target's samples and no error |
| ProviderPosts.AddPost | src/hooks/useProviderPosts.ts:55-81 | without a user it throws and nothing changes; otherwise a post by the user, numbered by the clock, dated now, with no likes or comments and the form's fields, goes to the front and is returned |
| ProviderPosts.DeletePost | src/hooks/useProviderPosts.ts:84-100 | without a user it throws and nothing changes; otherwise exactly the posts with another id remain, and it resolves true |
| ProviderPosts.AddThenDeleteRestores | src/hooks/useProviderPosts.ts:73-92 | deleting a post just added under a fresh id gives the list back |
| ProviderPosts.AddIgnoresTarget | src/hooks/useProviderPosts.ts:25-65 | a user viewing another provider's posts adds one under their own id to that provider's list |
| FavoritesHook.ToProvider | src/hooks/useFavorites.ts:25-38 | a row maps to a favourite with the provider id and each field under `\|\|` with its default (rating 4.5 when missing or zero), so the rating is never 0 |
| FavoritesHook.ToProviders | src/hooks/useFavorites.ts:25-38 | the mapping keeps length and order, row by row |
| FavoritesHook.MappedProvidersUniform | src/hooks/useFavorites.ts:25-38 | every mapped provider is a favourite, has a non-empty name and the same fixed distance |
| FavoritesHook.Fetch | src/hooks/useFavorites.ts:12-52 | loading ends; no user empties the list; a successful read maps the rows and clears the error; a failed one empties the list and records the error |
| FavoritesHook.AddFavorite | src/hooks/useFavorites.ts:55-87 | throws without a user and changes nothing; the insert's or the refetch's failure is rethrown with the list kept; on success it returns true and the list becomes the mapped refetch |
| FavoritesHook.AddShowsRefetch | src/hooks/useFavorites.ts:62-79 | a successful add shows exactly what a fetch with the same reply shows, one entry per returned row: the list is re-read, never patched |
| FavoritesHook.RemoveFavorite | src/hooks/useFavorites.ts:90-106 | throws without a user; a failure is rethrown with the list kept; on success it returns true and the list keeps, in order, exactly the providers with another id |
| FavoritesHook.RemoveAbsentKeepsList | src/hooks/useFavorites.ts:98 | removing an id the list does not hold leaves the list as it is |
| FavoritesPage.Search | src/components/patientprofile/settings/favorites/FavoritesPage.tsx:100-103 | the search keeps exactly the providers whose lower-cased name or speciality includes the lower-cased query |
| FavoritesPage.EmptyQueryKeepsAll | src/components/patientprofile/settings/favorites/FavoritesPage.tsx:100-103 | an empty query keeps every provider, in order |
| FavoritesPage.NextSort | src/components/patientprofile/settings/favorites/FavoritesPage.tsx:156 | the sort button always changes the mode |
| FavoritesPage.SortCycleReturns | src/components/patientprofile/settings/favorites/FavoritesPage.tsx:156 | three presses of the sort button return to the start, visiting three different modes |
| FavoritesPage.Sorted | src/components/patientprofile/settings/favorites/FavoritesPage.tsx:106-115 | sorting is a permutation; by rating it is descending; the default and distance modes keep the search order, since every distance is the same text |
| FavoritesPage.Listed | src/components/patientprofile/settings/favorites/FavoritesPage.tsx:100-115 | the listed providers are a permutation of the search result |
| FavoritesPage.CountLabel | src/components/patientprofile/settings/favorites/FavoritesPage.tsx:166 | the header starts with the count and ends in "s" iff the count is not 1 |
| FavoritesPage.HandleToggleFavorite | src/components/patientprofile/settings/favorites/FavoritesPage.tsx:26-33 | the heart always removes; a failure shows "Failed to remove from favorites. Please try again." and the list never grows |
| InsuranceHook.RoundPercent | src/hooks/useInsuranceBenefits.ts:16 | the result is the integer nearest to the exact share 100a/b, halves rounding up |
| InsuranceHook.RoundPercentBounded | src/hooks/useInsuranceBenefits.ts:16 | a share of a whole rounds to a percentage between 0 and 100 |
| InsuranceHook.OverallOf | src/hooks/useInsuranceBenefits.ts:12-21 | total and used are the sums over the benefits; remaining is their difference; the percentage is the rounded share when the total is positive and 0 otherwise |
| InsuranceHook.OverallWithinBounds | src/hooks/useInsuranceBenefits.ts:12-21 | when no benefit is negative or overdrawn, used lies within the total, nothing remaining is negative and the share is 0 to 100 |
| InsuranceHook.OverallAppend | src/hooks/useInsuranceBenefits.ts:13-14 | appending a benefit adds its amounts to the totals |
| InsuranceHook.MockBenefits | src/hooks/useInsuranceBenefits.ts:127-178 | four fallback benefits of the patient, all from "Blue Cross Insurance", none overdrawn |
| InsuranceHook.MockOverall | src/hooks/useInsuranceBenefits.ts:12-178 | the fallback benefits total 2900 with 750 used, a rounded 26%, 2150 remaining |
| InsuranceHook.Fetch | src/hooks/useInsuranceBenefits.ts:24-55 | against a store that defines `getInsuranceBenefits`: loading ends; no user empties the list; a non-empty list is shown; no list or an empty one shows the fallback; an error shows the fallback and is recorded; with a user the list is never empty |
| InsuranceHook.Inserted | src/hooks/useInsuranceBenefits.ts:63-66 | the inserted row is the input with the user as patient and the store's id |
| InsuranceHook.AddBenefit | src/hooks/useInsuranceBenefits.ts:58-76 | against a store that defines `addInsuranceBenefit`: no user gives a bare return and no change; a failure is rethrown with the list kept; on success the user's new row is appended after the old list and returned |
| InsuranceHook.UpdateBenefit | src/hooks/useInsuranceBenefits.ts:79-97 | against a store that defines `updateInsuranceBenefit`: no user check; a failure is rethrown with the list kept; on success every benefit with the id becomes the store's row, the others are kept, and the row is returned |
| InsuranceHook.DeleteBenefit | src/hooks/useInsuranceBenefits.ts:100-113 | against a store that defines `deleteInsuranceBenefit`: a failure is rethrown with the list kept; on success it returns true and the list keeps exactly the benefits with another id |
| InsuranceHook.AddThenDeleteRestores | src/hooks/useInsuranceBenefits.ts:58-113 | against a store that defines the add and delete calls: deleting a benefit just added under a fresh id gives the list back |
| InsuranceHook.AddMovesTotals | src/hooks/useInsuranceBenefits.ts:12-68 | against a store that defines the add call: adding one benefit moves total and used by its amounts |
| InsuranceHook.FetchAsWritten | src/hooks/useInsuranceBenefits.ts:24-55 | as written: loading ends; no user empties the list; with a user the call throws, so the list is the four fallback benefits and the `TypeError` is recorded |
| InsuranceHook.AddAsWritten | src/hooks/useInsuranceBenefits.ts:58-76 | as written: no user gives a bare return and no change; with a user every add rejects with the `TypeError` and the list is kept |
| InsuranceHook.UpdateAsWritten | src/hooks/useInsuranceBenefits.ts:79-97 | as written: every update rejects with the `TypeError` and the list is kept |
| InsuranceHook.DeleteAsWritten | src/hooks/useInsuranceBenefits.ts:100-113 | as written: every delete rejects with the `TypeError` and the list is kept |
| InsuranceHook.RunAsWritten | src/hooks/useInsuranceBenefits.ts:57-113 | as written: no run of adds, updates and deletes changes the list or the recorded error; with a user, loading ends after any of them |
| InsuranceHook.AsWrittenShowsOnlySamples | src/hooks/useInsuranceBenefits.ts:24-113 | as written a signed-in patient sees only the four fallback benefits and the fetch's error, whatever they do next; against a store with the calls an added benefit follows the four |
| InsuranceForm.Set | src/components/patientprofile/settings/insurance/AddInsuranceBenefitModal.tsx:56-59 | the edited field takes the value and every other field is kept |
| InsuranceForm.TotalError | src/components/patientprofile/settings/insurance/AddInsuranceBenefitModal.tsx:78-82 | no message iff the total is non-empty and a number above 0; otherwise "required" for empty and "must be a positive number" for the rest |
| InsuranceForm.UsedError | src/components/patientprofile/settings/insurance/AddInsuranceBenefitModal.tsx:84-90 | "required" for empty, "non-negative" for NaN or below 0; no message iff a number of at least 0 that does not exceed a numeric total (a NaN total is not compared); "cannot exceed" only above a numeric total |
| InsuranceForm.FieldError | src/components/patientprofile/settings/insurance/AddInsuranceBenefitModal.tsx:70-76 | type and provider have a message iff empty; policy number and renewal date never have one; no message is empty |
| InsuranceForm.Validate | src/components/patientprofile/settings/insurance/AddInsuranceBenefitModal.tsx:67-94 | the map is rebuilt from nothing: a key iff its field has a message, carrying that message |
| InsuranceForm.ValidIff | src/components/patientprofile/settings/insurance/AddInsuranceBenefitModal.tsx:67-94 | valid iff type and provider are filled in, the total is a positive number and the used amount a number from 0 to the total |
| InsuranceForm.PolicyAndRenewalUnchecked | src/components/patientprofile/settings/insurance/AddInsuranceBenefitModal.tsx:67-94 | policy number and renewal date never change the error map |
| InsuranceForm.EmptyTotalStillCompared | src/components/patientprofile/settings/insurance/AddInsuranceBenefitModal.tsx:78-90 | with an empty total and a used amount of "5", the total is "required" and the used amount also "cannot exceed" the total, since Number("") is 0 |
| InsuranceForm.HandleInputChange | src/components/patientprofile/settings/insurance/AddInsuranceBenefitModal.tsx:55-65 | the field takes the value; the error keys stay; the edited field's error is hidden (blanked); every other error is kept |
| InsuranceForm.EditHidesOnlyThatField | src/components/patientprofile/settings/insurance/AddInsuranceBenefitModal.tsx:61-64 | editing one field never shows or hides another field's error |
| InsuranceForm.BeginSubmit | src/components/patientprofile/settings/insurance/AddInsuranceBenefitModal.tsx:96-104 | the errors are always rebuilt; the form is sent iff it is valid and no save is in flight, which marks the modal saving |
| InsuranceForm.FinishSubmit | src/components/patientprofile/settings/insurance/AddInsuranceBenefitModal.tsx:104-121 | saving always ends and the errors stay; close is asked iff the save resolved, then the form is blank; after a rejection the form is kept |
| InsuranceForm.NoSecondSubmitWhileSaving | src/components/patientprofile/settings/insurance/AddInsuranceBenefitModal.tsx:99 | while a save is in flight a second submit sends nothing |
| InsuranceForm.SubmitAgainAfterSettling | src/components/patientprofile/settings/insurance/AddInsuranceBenefitModal.tsx:117-121 | after a rejected save the same form can be submitted again |
| InsurancePage.RemainingPercentage | src/components/patientprofile/settings/insurance/InsuranceBenefitsPage.tsx:63-64 | no finite share iff the total is 0; otherwise the integer nearest to the exact remaining share of the total, halves rounding up, for a negative total too |
| InsurancePage.Items | src/components/patientprofile/settings/insurance/InsuranceBenefitsPage.tsx:42-75 | one item per benefit, in order, with its id, type, amounts and remaining share, the i-th taking colour and icon number i mod 4 |
| InsurancePage.StylesCycle | src/components/patientprofile/settings/insurance/InsuranceBenefitsPage.tsx:69-73 | two items share a colour, and an icon, iff their positions differ by a multiple of four |
| InsurancePage.SameResidue | src/components/patientprofile/settings/insurance/InsuranceBenefitsPage.tsx:69-73 | positions differ by a multiple of four iff they leave the same remainder mod 4 |
| InsurancePage.StylesDistinct | src/components/patientprofile/settings/insurance/InsuranceBenefitsPage.tsx:43-61 | the four colours differ from each other, and so do the four icons |
| InsurancePage.RemainingComplementsUsed | src/components/patientprofile/settings/insurance/InsuranceBenefitsPage.tsx:64 | a benefit's rounded remaining share and the rounded used share of the hook add up to 100, or 101 when both round a half up |
| InsurancePage.OpenModal | src/components/patientprofile/settings/insurance/InsuranceBenefitsPage.tsx:172-174 | the add button opens the modal and changes nothing else |
| InsurancePage.Input | src/components/patientprofile/settings/insurance/InsuranceBenefitsPage.tsx:178-185 | the benefit sent carries the form's texts and the `parseInt` values of both amounts |
| InsurancePage.SavedAmountsTruncate | src/components/patientprofile/settings/insurance/InsuranceBenefitsPage.tsx:182-183 | for plain numerals a valid form saves the whole part of each amount, dropping the fraction the validator accepted, and the saved used amount stays within the saved total |
| InsurancePage.SaveAsWritten | src/components/patientprofile/settings/insurance/InsuranceBenefitsPage.tsx:176-192 | the handler always resolves; a failed add only alerts "Failed to add benefit. Please try again." and leaves the modal flag; otherwise the modal flag is cleared |
| InsurancePage.SaveCorrected | src/components/patientprofile/settings/insurance/InsuranceBenefitsPage.tsx:176-192 | as the handler, but a failed add is passed on after the alert, so the save rejects |
| InsurancePage.Settle | src/components/patientprofile/settings/insurance/InsuranceBenefitsPage.tsx:403-407 | the page's modal closes iff the save resolved; the modal shown is the one settled with the save's outcome, or a fresh blank one when the save showed the spinner that unmounts it |
| InsurancePage.SubmitAsWritten | src/components/patientprofile/settings/insurance/AddInsuranceBenefitModal.tsx:96-121 | a submit that sends nothing only rebuilds the errors; one that sends always ends with the modal closed and the form blank, and with a user signed in the modal is a fresh one |
| InsurancePage.FailedAddClosesAndClears | src/components/patientprofile/settings/insurance/InsuranceBenefitsPage.tsx:176-192 | a failed add still clears what was typed and closes the modal behind the alert, with no benefit added |
| InsurancePage.SubmitCorrected | src/components/patientprofile/settings/insurance/AddInsuranceBenefitModal.tsx:96-121 | a submit that sends nothing only rebuilds the errors; one that sends always ends saving, and with a user signed in the modal is a fresh one |
| InsurancePage.CorrectedClosesOnlyAfterAdd | src/components/patientprofile/settings/insurance/InsuranceBenefitsPage.tsx:176-200 | with the failure passed on, the modal stays open iff the add failed, alerting, with no benefit added; on success one benefit is added; either way the form is blank, because the spinner during the add remounted the modal |
| MessagesHook.ToConversation | src/hooks/useMessages.ts:38-47 | a summary row becomes a conversation with the partner's id, name, avatar, last message, time, badge and speciality, and nobody is online |
| MessagesHook.ToConversations | src/hooks/useMessages.ts:38-47 | the mapping keeps length and order, row by row |
| MessagesHook.FetchConversations | src/hooks/useMessages.ts:25-65 | loading ends and the open chat and messages stay; no user empties the list; success maps the rows, all offline, and clears the error; failure keeps the list and records the error |
| MessagesHook.SetCurrentChat | src/hooks/useMessages.ts:19-152 | opening or leaving a chat keeps the conversations and messages until the next fetch |
| MessagesHook.ZeroUnread | src/hooks/useMessages.ts:83-89 | exactly the conversations with the chat's id get a zero badge; the rest are unchanged |
| MessagesHook.FetchMessages | src/hooks/useMessages.ts:68-107 | without a user or open chat the messages are emptied and nothing else changes; a failed read or mark keeps the list and badges and records the error (a failed read or mark leaves the store); when both succeed the hook takes the chat's messages as read before marking, zeroes the badge and the store marks them read |
| MessagesHook.OpeningChatClearsItsBadgeOnly | src/hooks/useMessages.ts:80-89 | opening a chat zeroes only its own badge, and afterwards the store holds no unread message from the partner to the user |
| MessagesHook.Send | src/hooks/useMessages.ts:109-144 | without a user or open chat a bare return; a failure is rethrown with nothing changed; otherwise an unread text from the user to the chat is stored and appended, and only that chat's conversation takes the content and time as its last message |
| MessagesHook.SentMessageIsReadBack | src/hooks/useMessages.ts:109-124 | the sent message is in the next read of the chat |
| MessagingPages.PatientBubble | src/components/patientprofile/messaging/MessagingPage.tsx:114-122 | on the patient page a message is the user's own exactly when the user sent it, labelled "You", else it carries the partner's name; the other fields are copied |
| MessagingPages.ProviderBubble | src/components/providerprofile/message/ProviderMessagesPage.tsx:71-79 | on the provider page a message is the user's own exactly when the partner did not send it; the label follows the same rule |
| MessagingPages.PatientBubbles | src/components/patientprofile/messaging/MessagingPage.tsx:114-122 | one bubble per message, in order |
| MessagingPages.ProviderBubbles | src/components/providerprofile/message/ProviderMessagesPage.tsx:71-79 | one bubble per message, in order |
| MessagingPages.LabelsAgreeWithinConversation | src/components/providerprofile/message/ProviderMessagesPage.tsx:74-77 | for messages exchanged between the user and the partner the two pages label every bubble alike |
| MessagingPages.LabelsDisagreeOutsideIt | src/components/providerprofile/message/ProviderMessagesPage.tsx:74-77 | a third party's message is the partner's on one page and the user's own on the other; a chat with oneself flips the other way |
| MessagingPages.Selected | src/components/providerprofile/message/ProviderMessagesPage.tsx:56-58 | the chat view opens exactly when the current chat id is non-empty and a listed conversation has it, and shows that conversation |
| MessagingPages.SelectThenBack | src/components/patientprofile/messaging/MessagingPage.tsx:30-36 | selecting a listed chat opens it; going back closes it and the list is as before |
| MessagingPages.Online | src/components/providerprofile/message/ProviderMessagesPage.tsx:125-129 | the online strip holds exactly the conversations marked online |
| MessagingPages.NobodyOnlineAfterFetch | src/components/patientprofile/messaging/MessagingPage.tsx:148-152 | after a successful fetch the online strip is empty, since the hook marks nobody online |
| MessagingPages.PatientSend | src/components/patientprofile/messaging/MessagingPage.tsx:124 | the patient page's send settles as the hook's send does: a bare return without user or chat, the failure rejected with nothing changed, otherwise one message more in the store and in the view |
| MessagingPages.ProviderSend | src/components/providerprofile/message/ProviderMessagesPage.tsx:43-53 | without an open chat a bare return; a store failure is rethrown with nothing changed; otherwise it resolves |
| MessagingPages.PagesSendAlike | src/components/providerprofile/message/ProviderMessagesPage.tsx:43-53 | the provider page's extra guard and rethrow make its send equal to the patient page's in state, store and outcome |
| MessagingPages.ComposerToStore | src/components/providerprofile/message/ProviderMessagesPage.tsx:43-53 | pressing send stores the trimmed text from the user to the open chat, empties the composer, and the stored message shows as the user's own |
| ChatView.Type | src/components/providerprofile/message/ChatView.tsx:175-179 | a disabled input (send in flight) takes nothing; otherwise the text becomes the typed value and nothing else changes |
| ChatView.BeginSend | src/components/providerprofile/message/ChatView.tsx:40-189 | a send goes out iff the button is enabled (non-blank text, no send in flight), carries the trimmed text and marks the composer sending; otherwise nothing changes |
| ChatView.FinishSend | src/components/providerprofile/message/ChatView.tsx:46-52 | sending always ends; success clears the text; failure keeps the text and alerts "Failed to send message. Please try again." |
| ChatView.KeyPress | src/components/providerprofile/message/ChatView.tsx:55-60 | Enter without Shift behaves as the send button; any other key sends nothing and changes nothing |
| ChatView.SentIsTrimmedText | src/components/providerprofile/message/ChatView.tsx:41-45 | what goes out is non-empty with no white space at either end, and the typed text held a non-space character |
| ChatView.BlankNeverSends | src/components/providerprofile/message/ChatView.tsx:41 | white space alone never sends, by button or by key |
| ChatView.OneSendAtATime | src/components/providerprofile/message/ChatView.tsx:41-189 | while a send is in flight typing is ignored and neither button nor key sends again |
| ChatView.SettleThenRetry | src/components/providerprofile/message/ChatView.tsx:46-52 | after success the composer is blank with its button disabled; after failure the same text goes out again on retry |
| Notifications.Fetch | src/hooks/useNotifications.ts:13-34 | loading ends; no user clears list and counter; a reply replaces the list, counts its unread entries and clears the error; a failure records it and keeps list and counter |
| Notifications.MarkRead | src/hooks/useNotifications.ts:52-58 | exactly the entries with the id become read; the rest and the order are unchanged |
| Notifications.UnreadAfterMark | src/hooks/useNotifications.ts:52-58 | the patch lowers the number of unread entries by exactly the unread entries carrying the id |
| Notifications.MarkAsReadAsWritten | src/hooks/useNotifications.ts:45-66 | without a user nothing happens; a store failure is rethrown with nothing changed; otherwise the entries are patched and the counter drops by one, floored at zero |
| Notifications.AsWrittenAccurateForOneUnread | src/hooks/useNotifications.ts:61 | when exactly one unread entry has the id, the decrement keeps an accurate counter accurate |
| Notifications.AsWrittenDriftsOnRereading | src/hooks/useNotifications.ts:61 | marking an already-read notification drops the counter to 0 while one unread notification remains |
| Notifications.MarkAsRead | src/hooks/useNotifications.ts:45-66 | the corrected mark: same guard, rethrow and patch, with the counter equal to the unread entries left |
| Notifications.MarkAsReadKeepsAccurate | src/hooks/useNotifications.ts:45-66 | the corrected mark keeps the counter accurate and lowers it by the unread entries with the id |
| Notifications.MarkAllAsRead | src/hooks/useNotifications.ts:69-86 | without a user nothing happens; a failure is rethrown with nothing changed; otherwise every entry is read and the counter is 0 |
| Notifications.MarkAllMakesAccurate | src/hooks/useNotifications.ts:76-81 | after marking all the counter is accurate, whatever it was before |
| PatientProfile.InitialShape | src/hooks/usePatientProfile.ts:27-59 | the sample profile has blood type A+, one contact and two entries in every other list, numbered from "1" within each list |
| PatientProfile.WithItems | src/hooks/usePatientProfile.ts:79-89 | replacing one medical list leaves the other two and the remaining fields as they were |
| PatientProfile.AddEmergencyContact | src/hooks/usePatientProfile.ts:62-68 | exactly one contact, with the clock reading as id, is appended; nothing else changes |
| PatientProfile.AddMedicalItem | src/hooks/usePatientProfile.ts:70-90 | exactly one item is appended to the list the type names; the other lists and fields are unchanged |
| PatientProfile.AddDocument | src/hooks/usePatientProfile.ts:92-98 | exactly one document is appended; nothing else changes |
| PatientProfile.DeleteItem | src/hooks/usePatientProfile.ts:100-118 | the named list keeps exactly its entries with another id; every other list is unchanged |
| PatientProfile.AddContactThenDelete | src/hooks/usePatientProfile.ts:62-103 | deleting a contact just added under a fresh id gives the profile back |
| PatientProfile.AddItemThenDelete | src/hooks/usePatientProfile.ts:70-113 | deleting an item just added under a fresh id gives the profile back, for each of the three lists |
| PatientProfile.AddDocumentThenDelete | src/hooks/usePatientProfile.ts:92-115 | deleting a document just added under a fresh id gives the profile back |
| PatientProfile.DeleteIsScopedToItsList | src/hooks/usePatientProfile.ts:100-118 | removing allergy "1" from the sample keeps contact "1" and medication "1" |
| PatientProfile.ClockIdCanCollide | src/hooks/usePatientProfile.ts:64 | an add at clock reading 1 shares the sample contact's id, and deleting it removes both |
| PatientRows.Fetch | src/hooks/useMedicalRecords.ts:12-35 | loading ends; no user empties the list; a successful read takes the rows and clears the error; a failed one empties the list and records the error |
| PatientRows.Append | src/hooks/useMedicalRecords.ts:38-57 | without a user it throws "User not authenticated" before any change; a failure is rethrown with the list kept; on success the store's row for the user is appended and returned |
| PatientRows.Remove | src/hooks/useMedicalRecords.ts:60-73 | no user is asked for; a failure is rethrown with the list kept; on success it returns true and the list keeps exactly the rows with another id |
| PatientRows.AppendThenRemoveRestores | src/hooks/useEmergencyContacts.ts:38-72 | removing a row just appended under a fresh id gives the list back |
| PatientRows.RemoveKeepsPrefix | src/hooks/useEmergencyContacts.ts:64 | the filter keeps order: rows in front of the first one with the id stay in front, untouched |
| MedicalRecords.FetchMedicalRecords | src/hooks/useMedicalRecords.ts:12-35 | loading ends; no user or a failed read leaves the list empty (the failure is recorded); a successful read takes the rows and clears the error |
| MedicalRecords.AddMedicalRecord | src/hooks/useMedicalRecords.ts:38-57 | throws "User not authenticated" without a user and changes nothing; a store failure is rethrown with the list kept; on success one record owned by the user, dated by the client's clock and carrying the input and the store's id, is appended and returned |
| MedicalRecords.DeleteMedicalRecord | src/hooks/useMedicalRecords.ts:60-73 | a store failure is rethrown with the list kept; on success it returns true and the list keeps exactly the records with another id |
| MedicalRecords.AddThenDeleteRestores | src/hooks/useMedicalRecords.ts:38-73 | deleting a record just added under a fresh id gives the list back |
| EmergencyContacts.FetchEmergencyContacts | src/hooks/useEmergencyContacts.ts:12-35 | loading ends; no user or a failed read leaves the list empty (the failure is recorded); a successful read takes the rows and clears the error |
| EmergencyContacts.AddEmergencyContact | src/hooks/useEmergencyContacts.ts:38-56 | throws "User not authenticated" without a user and changes nothing; a store failure is rethrown with the list kept; on success one contact owned by the user, carrying the input and the store's id and time, is appended and returned |
| EmergencyContacts.DeleteEmergencyContact | src/hooks/useEmergencyContacts.ts:59-72 | a store failure is rethrown with the list kept; on success it returns true and the list keeps exactly the contacts with another id |
| EmergencyContacts.AddThenDeleteRestores | src/hooks/useEmergencyContacts.ts:38-72 | deleting a contact just added under a fresh id gives the list back |
| UploadDocument.LimitIsInclusive | src/components/patientprofile/settings/uploaddocument/UploadDocumentPage.tsx:145-149 | the limit is 25 MiB and a file of exactly that size is accepted, one byte more is not |
| UploadDocument.RecordType | src/components/patientprofile/settings/uploaddocument/UploadDocumentPage.tsx:75 | the record type is "Image" exactly when the MIME type starts with "image/", and "Document" otherwise |
| UploadDocument.Extension | src/components/patientprofile/settings/uploaddocument/UploadDocumentPage.tsx:228 | the extension is the lower-cased whole name when it has no point, and never contains a point |
| UploadDocument.IconExamples | src/components/patientprofile/settings/uploaddocument/UploadDocumentPage.tsx:227-233 | the icon looks only at the last extension, in any letter case, and a name without a point is its own extension |
| UploadDocument.Entry | src/components/patientprofile/settings/uploaddocument/UploadDocumentPage.tsx:102-115 | a new entry is keyed by the clock reading, uploading at progress 0, and copies the file's name, size and type |
| UploadDocument.Select | src/components/patientprofile/settings/uploaddocument/UploadDocumentPage.tsx:139-157 | every file within the limit appends an uploading entry and every other file an alert, so entries plus alerts equal the files, and earlier entries stay |
| UploadDocument.EveryFittingFileListed | src/components/patientprofile/settings/uploaddocument/UploadDocumentPage.tsx:139-157 | every file within the limit gets its entry, whatever was selected with it |
| UploadDocument.Settle | src/components/patientprofile/settings/uploaddocument/UploadDocumentPage.tsx:81-96 | the entries with the id take the outcome, success or error, at progress 100, and all others stay |
| UploadDocument.FinishUpload | src/components/patientprofile/settings/uploaddocument/UploadDocumentPage.tsx:66-100 | signed out the upload throws before any update; otherwise the entry shows the outcome of storing the file and its record, and the outcome is passed on |
| UploadDocument.SameClockSharesOutcome | src/components/patientprofile/settings/uploaddocument/UploadDocumentPage.tsx:102-157 | two files reached in the same millisecond share an id, so one upload's outcome shows on both |
| UploadDocument.Retry | src/components/patientprofile/settings/uploaddocument/UploadDocumentPage.tsx:205-212 | a retry drops the entries with the id and appends a fresh uploading entry for the file; an unknown id changes nothing |
| UploadDocument.RetryReplacesFailedEntry | src/components/patientprofile/settings/uploaddocument/UploadDocumentPage.tsx:205-212 | after a retry under a new clock reading the failed entry is gone, the list keeps its length, and the new last entry uploads the same file |
| UploadDocument.DeleteFile | src/components/patientprofile/settings/uploaddocument/UploadDocumentPage.tsx:214-225 | a stored record is deleted through the records hook, with an alert on failure; a local entry is only filtered out of the list |
| UploadDocument.LocalDeleteLeavesRecords | src/components/patientprofile/settings/uploaddocument/UploadDocumentPage.tsx:214-225 | deleting a local entry never touches the stored records, whatever the store would answer |
| Auth.FallbackUserType | src/contexts/AuthContext.tsx:222 | the preferred type wins; else a non-empty stored type; else a non-empty metadata type; else "patient" |
| Auth.FallbackFullName | src/contexts/AuthContext.tsx:227 | a non-empty metadata name wins; else a non-empty email local part; else "User" |
| Auth.FallbackNameShape | src/contexts/AuthContext.tsx:227 | a fallback name is never empty, and one taken without a metadata name holds no `@` |
| Auth.FallbackProfile | src/contexts/AuthContext.tsx:216-235 | the fallback profile carries the user id, the fallback type and name, the email or "", a phone only when the metadata has a non-empty one, and `now` as both times |
| Auth.FallbackExample | src/contexts/AuthContext.tsx:222-229 | for "jane@example.org" with no metadata and nothing stored the fallback is a patient named "jane" with no phone |
| Auth.ApplyStoredType | src/contexts/AuthContext.tsx:180-206 | a type is written iff a non-empty preference is stored and differs from the profile's; the first returned row is taken after a write; a failed or empty write keeps the profile as read |
| Auth.OverrideSettles | src/contexts/AuthContext.tsx:184-200 | once the write is taken the profile carries the stored type, and a second read writes nothing |
| Auth.FailedOverrideKeepsType | src/contexts/AuthContext.tsx:196-198 | a failed type write keeps the type as read, with no error |
| Auth.LoadProfile | src/contexts/AuthContext.tsx:143-214 | a row read first goes through the override; a PGRST116 error is retried once: a retried row is taken as is, a retry with neither row nor error leaves no profile, and a retry error leaves what building the fallback leaves; every other first-read error or a missing row leaves what building the fallback leaves |
| Auth.FallbackOutcome | src/contexts/AuthContext.tsx:216-242 | no profile exactly when reading the user throws; otherwise the fallback profile built from that user |
| Auth.MissingRowProfileIff | src/contexts/AuthContext.tsx:175-242 | a missing row leaves a profile, carrying the user's id, exactly when reading the user succeeds |
| Auth.RetriedRowSkipsOverride | src/contexts/AuthContext.tsx:159-172 | the override runs on the first read only: the same row found on retry keeps its own type |
| Auth.SignUp | src/contexts/AuthContext.tsx:244-280 | the type is stored whatever the service answers; the error is none iff sign-up succeeded, else the service's message |
| Auth.SignOut | src/contexts/AuthContext.tsx:318-361 | user, profile, session and stored type are always cleared; the error is none iff sign-out succeeded or the message names an expired session, returned or thrown; otherwise it is the message |
| Auth.SignOutPathsAgree | src/contexts/AuthContext.tsx:331-359 | a returned and a thrown error with one message give the same outcome, whatever the state before |
| Auth.SignOutClassifies | src/contexts/AuthContext.tsx:333-359 | "AuthSessionMissingError: Auth session missing!" counts as success; an error with no message is returned as "" |
| Auth.FailedSignUpStillOverrides | src/contexts/AuthContext.tsx:184-255 | a failed provider sign-up still stores "provider", which then rewrites the next patient profile read |
| Auth.SignOutForgetsPreference | src/contexts/AuthContext.tsx:184-326 | after sign-out no preference is stored, so a profile read next is kept with no write |
| Auth.UpdateProfile | src/contexts/AuthContext.tsx:386-406 | no user gives "No user logged in" and no change; a store failure is returned with no change; otherwise there is no error and the profile is whatever reading it again leaves, possibly none |
| Auth.UpdateReloadsAsLoad | src/contexts/AuthContext.tsx:143-406 | the reload after a write is a profile load: a row read again goes through the stored-type override, and a not-found read whose retry finds nothing leaves no profile with no error reported |
| Auth.UpdateWithoutUserIsInert | src/contexts/AuthContext.tsx:388-390 | without a user the outcome does not depend on the store and carries "No user logged in" |
| Navigation.TabForPath | src/hooks/usePatientNavigation.ts:9-22 | the first of `/search`, `/booking`, `/message` the path contains picks the tab, in that order; failing those, `/profile` (or `/setting` on the screens that count it) picks profile; home is shown exactly when the path contains none of these |
| Navigation.RouteFor | src/hooks/usePatientNavigation.ts:24-60 | only an unknown tab, or profile on the navigation hook when signed in, goes nowhere; signed out, booking, messages and profile go to the login choice; signed in, nothing does; search goes under `/patient` or `/browse` |
| Navigation.HandleTabChange | src/hooks/usePatientNavigation.ts:24-60 | the pressed tab becomes active; signed in, the address it routes to highlights that same tab; signed out, a gated tab routes to the login choice, which highlights home |
| Navigation.RouteHighlightsItsTab | src/components/patientprofile/booking/BookingPage.tsx:51-108 | on every screen, each signed-in tab route highlights its own tab again |
| Navigation.SearchOutranksBooking | src/hooks/usePatientNavigation.ts:11-14 | a path holding both `/bookings` and `/search` highlights search |
| Navigation.SettingsPathDisagreement | src/components/patientprofile/settings/favorites/FavoritesPage.tsx:84-96 | `/patient/settings` highlights profile on the booking and messaging screens and home on the navigation hook and the favourites screen |
| Navigation.SignedOutGatedTabs | src/components/patientprofile/messaging/MessagingPage.tsx:55-77 | signed out, booking, messages and profile all route to the login choice, whose path highlights home |
| Navigation.HomeWithoutSegments | src/components/patientprofile/messaging/MessagingPage.tsx:84-95 | a path with none of the segments' distinguishing letters highlights home |

## Left out

- Supabase client creation, the connection test and the auth session listener (src/contexts/AuthContext.tsx:34-141): session wiring and foreign I/O.
- The profile-fetch sleeps and timed retries in the auth context (src/contexts/AuthContext.tsx:148-175): timers; each retry is one more call of the modelled profile load.
- Password, phone and Google sign-in in the auth context (src/contexts/AuthContext.tsx:282-316, 363-384): they forward to the auth service and hold no rule of their own.
- The `if (error)` after the profile update's try block (src/contexts/AuthContext.tsx:394-397): unreachable, since the call throws instead.
- File storage (`uploadFile`, `getFileUrl`, `deleteFile`) and the storage paths built for it: foreign I/O. An upload's outcome is a parameter.
- The store's profile, review, notification, category and file functions are not tables here: the hooks that use them take the reply as a parameter.
- Message and notification polling, the random upload progress ticks and every other timer: time-driven; an upload goes straight from uploading to its outcome.
- `formatFileSize`, the distance sort's `parseFloat` and any other floating point: amounts, ratings and fees are integers, and rounding is integer rounding.
- `toLocaleDateString`, `new Date(...)` and the date shown on cards: dates are opaque strings, ordered as text.
- Avatar fallback URLs and the image `onError` handlers, except the initials the provider home screen shows.
- The empty-state wording of the booking pages and every other piece of pure rendering.
- The location filter of the provider search page: it only logs.
- The provider search page's type and sort handlers: they only call the hook's setters (`ProvidersHook.SetCategory`) and the sort is `ProvidersHook.SortedProviders`.
- `setBloodType` in the patient profile hook: a plain setter.
- The joined provider and patient display fields of the sample bookings: only ids, dates, times and statuses are modelled.
- Case folding and white space are ASCII: JavaScript's `toLowerCase` and `\s` cover more of Unicode.
- Numbers.ToNumber: reads decimal numerals only, not hexadecimal (`0x`), binary (`0b`), octal (`0o`), exponents or `Infinity`.
- InsuranceHook.Fetch: describes the fetch against a store that defines `getInsuranceBenefits`; as written the call always throws (`InsuranceHook.FetchAsWritten`).
- InsuranceHook.AddBenefit: describes the add against a store that defines `addInsuranceBenefit`; as written every add with a user rejects (`InsuranceHook.AddAsWritten`).
- InsuranceHook.UpdateBenefit: describes the update against a store that defines `updateInsuranceBenefit`; as written every update rejects (`InsuranceHook.UpdateAsWritten`).
- InsuranceHook.DeleteBenefit: describes the delete against a store that defines `deleteInsuranceBenefit`; as written every delete rejects (`InsuranceHook.DeleteAsWritten`).
- InsuranceHook.AddThenDeleteRestores: holds for a store that defines the add and delete calls; as written neither call succeeds, so the list never changes (`InsuranceHook.RunAsWritten`).
- InsuranceHook.AddMovesTotals: holds for a store that defines the add call; as written no add succeeds and the totals never move (`InsuranceHook.RunAsWritten`).
- InsuranceHook.RoundPercent: rounds the exact share, while the code rounds the floating-point value `(a / b) * 100`; for 23 of 40 that value is just under 57.5, so the code gives 57 where the model gives 58.
- InsuranceHook.OverallOf: its percentage is `InsuranceHook.RoundPercent`'s, with the same difference from the floating-point result.
- InsurancePage.RemainingPercentage: rounds the exact share as `InsuranceHook.RoundPercent` does; 17 remaining of 40 gives 57 in the code and 58 in the model.
- Database.GetAppointments: rows with the same date are listed in table order; the store leaves their order open.
- The upload page takes `medicalRecords`, `addMedicalRecord` and `deleteMedicalRecord` from `usePatientProfile`, which returns none of them; the model gives the page the medical-records hook's state and operations instead.
- The upload page declares `handleFileUpload` twice in one scope; the model keeps the first (the upload of one file) and leaves out the second, which only opens the file picker.
- ProvidersHook.ListProviders: the search term is matched as a plain substring; `%` and `_` inside it, which `ilike` treats as wildcards, are not modelled, nor is how the store applies an `or` filter that names the joined profile's column.
- InsurancePage.Input: requires that `parseInt` reads both amounts; a form the validator accepts, such as a total of ".5", would send `NaN`, which is not modelled.
- InsurancePage.SaveAsWritten: requires that `parseInt` reads both amounts, as `InsurancePage.Input` does.
- InsurancePage.SaveCorrected: requires that `parseInt` reads both amounts, as `InsurancePage.Input` does.
- InsurancePage.SubmitAsWritten: requires that a valid form the modal would send has amounts `parseInt` reads, as `InsurancePage.Input` does.
- InsurancePage.SubmitCorrected: requires that a valid form the modal would send has amounts `parseInt` reads, as `InsurancePage.Input` does.
- ConfirmDetails.BookNow: defined only when the page renders, with a package and a provider, since the button exists only then.
- The hooks called after a conditional return on the confirmation page: the model treats the page as rendering its hooks in a fixed order.

## Findings

| source | as written | input that shows it | evidently intended | confidence | as-written member | corrected member |
|---|---|---|---|---|---|---|
| src/hooks/useNotifications.ts:61 | after a successful store update `markAsRead` lowers the unread counter by one, whatever the notification's state | a list of one read and one unread notification with counter 1; marking the read one sets the counter to 0 while one unread notification remains | the counter stays equal to the number of unread notifications | not executed | Notifications.MarkAsReadAsWritten | Notifications.MarkAsRead |
| src/components/patientprofile/settings/insurance/InsuranceBenefitsPage.tsx:176-192 | the save handler catches a failed add and only alerts, so the modal's submit sees success, clears the form and closes | as written every add with a user signed in rejects, because the store module does not define `addInsuranceBenefit` (`InsuranceHook.AddAsWritten`), so any valid form shows this: the alert asks to try again, but the modal is closed | a failed add keeps the modal open, so the user can try again; the typed input is still lost, because the page's loading spinner (lines 194-200) remounts the modal during every add | not executed | InsurancePage.SubmitAsWritten | InsurancePage.SubmitCorrected |
| src/hooks/useInsuranceBenefits.ts:34 | the fetch calls `dbService.getInsuranceBenefits`, which the store module does not define, so it throws a `TypeError` inside the `try` | any signed-in patient: the list is always the four fallback benefits and the error is recorded | the patient's stored benefits are shown, and the fallback only when there are none or the read fails | not executed | InsuranceHook.FetchAsWritten | InsuranceHook.Fetch |
| src/hooks/useInsuranceBenefits.ts:63 | the add calls `dbService.addInsuranceBenefit`, which the store module does not define, so it throws and the hook rethrows | any signed-in patient adding any benefit: the add rejects and the list is kept | the stored row is appended and returned | not executed | InsuranceHook.AddAsWritten | InsuranceHook.AddBenefit |
| src/hooks/useInsuranceBenefits.ts:82 | the update calls `dbService.updateInsuranceBenefit`, which the store module does not define, so it throws and the hook rethrows | any update of any benefit: it rejects and the list is kept | every benefit with the id becomes the stored row | not executed | InsuranceHook.UpdateAsWritten | InsuranceHook.UpdateBenefit |
| src/hooks/useInsuranceBenefits.ts:103 | the delete calls `dbService.deleteInsuranceBenefit`, which the store module does not define, so it throws and the hook rethrows | any delete of any benefit: it rejects and the list is kept | the benefits with the id leave the list and the delete resolves with true | not executed | InsuranceHook.DeleteAsWritten | InsuranceHook.DeleteBenefit |
| src/hooks/useProviderProfile.ts:93-96 | with no profile loaded, the update calls `dbService.addProviderProfile`, which the store service does not define, so it throws a `TypeError` that the catch rethrows | a provider with no profile row saving any change: the save rejects and no profile is created | with no profile loaded, one is created from the update and shown | not executed | ProviderProfile.UpdateAsWritten | ProviderProfile.UpdateProviderProfile |
