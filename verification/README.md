# Trockly screen logic in Dafny

Trockly is a React Native app for trading goods and services locally. This project models
the logic behind its screens. It covers:

- the shared form validators;
- the sign-up, login and password-reset screens with their OTP boxes;
- the five-page onboarding wizard: location, profile, preferences, swap-distance slider
  and trade draft, then a preview and a success screen;
- the Home screen's swipe deck and filter bar;
- the country-code picker;
- the profile and ratings pages with their pop-up menus.

Each handler is modelled as a pure function from the screen's state, and the event's data,
to the next state and the callbacks it makes. Rendering decisions are predicates or small
view datatypes: which card is on top, which segments are lit, which button is greyed out.

JavaScript string semantics are written out in `JsText`:

- `trim` and `\s` use the ECMAScript whitespace set.
- `toLowerCase` covers ASCII letters only.
- `includes`, `indexOf`, `substring` and `slice` have explicit definitions.
- The regular expressions of the validators are defined as character-class predicates.
  Each is proved equal to the scanning definition the handler uses.

Pixel arithmetic uses `real`, and `Math.round` is `(x + 0.5).Floor`.

Each handler is paired with a property that relates it to something else: an inverse, an
invariant kept over any run of events, an agreement between two screens or two versions,
or a reference definition. Examples:

- Any run of onboarding events keeps at most three preferences selected and the swap
  distance between 1 and 5.
- In the corrected deck, the swipe deck decides the cards one by one, in list order.
- The bio counter counts maximal runs of non-whitespace.
- The email scanner accepts exactly the strings matching `^[^\s@]+@[^\s@]+\.[^\s@]+$`.

## Model

| member | source | states |
|---|---|---|
| JsText.TrimStart | app/utils/validation.ts:30 | the result is a suffix of the input, everything dropped is whitespace, and it does not start with whitespace |
| JsText.TrimEnd | app/utils/validation.ts:30 | the result is a prefix of the input, everything dropped is whitespace, and it does not end with whitespace |
| JsText.Trim | app/utils/validation.ts:30 | the result is a contiguous slice of the input with whitespace only outside it, and it neither starts nor ends with whitespace |
| JsText.BlankIffAllSpace | app/utils/validation.ts:44 | `!s.trim()` holds exactly when every character is whitespace |
| JsText.TrimWithoutSpace | app/auth/reset-password.tsx:99-102 | trimming text without whitespace changes nothing |
| JsText.ToLower | app/auth/login.tsx:61 | same length, each character lowered on its own |
| JsText.LowerIdempotent | app/components/CountryCodePicker.tsx:43 | lowering twice is lowering once |
| JsText.Includes | app/components/CountryCodePicker.tsx:43-45 | `includes` holds exactly when the needle occurs at some position |
| JsText.EmptyIsIncluded | app/components/CountryCodePicker.tsx:41-46 | the empty needle occurs in every text |
| JsText.IncludesChar | app/auth/create-account.tsx:92-94 | including a one-character needle is the same as containing that character |
| JsText.IncludesPiece | app/components/CountryCodePicker.tsx:43-45 | a text that includes a needle includes every slice of it |
| JsText.IndexOf | app/auth/OTPVerification.tsx:90 | `None` exactly when the character is absent; otherwise the first position holding it |
| JsText.IndexOfIsFirst | app/auth/OTPVerification.tsx:90 | a position holding the character with none before it is what `IndexOf` returns |
| JsText.Prefix | app/auth/OTPVerification.tsx:91 | `substring(0, n)`: the first `min(n, length)` characters |
| JsText.Suffix | app/auth/OTPVerification.tsx:91 | `slice(-n)`: the last `min(n, length)` characters |
| SeqUtil.Filter | app/components/ProfileDetailsScreen.tsx:49 | keeps exactly the elements satisfying the predicate, each as often as before, in their original order |
| SeqUtil.FilterMembership | app/components/CountryCodePicker.tsx:41-46 | an element is kept exactly when it is present and satisfies the predicate |
| SeqUtil.FilterKeepsAll | app/components/CountryCodePicker.tsx:41-46 | filtering a list whose elements all pass returns the list itself |
| SeqUtil.FilterPartition | app/components/ProfileDetailsScreen.tsx:49 | filtering by a predicate and by its negation splits the list's length between the two results |
| SeqUtil.FilterAppendDropped | app/components/CreateTrade.tsx:78-79 | appending an element the filter drops does not change the filtered list |
| Validation.ValidateEmail | app/utils/validation.ts:3-6 | true exactly when the input matches `^[^\s@]+@[^\s@]+\.[^\s@]+$` |
| Validation.ScanGivesPattern | app/utils/validation.ts:4 | a string the scanner accepts has a split into local part, '@', domain, '.', suffix as the pattern requires |
| Validation.PatternGivesScan | app/utils/validation.ts:4 | every string matching the pattern is accepted by the scanner |
| Validation.DomainHasEmailChars | app/utils/validation.ts:4 | in a pattern match, everything after the '@' is an address character or the dot |
| Validation.EmailScanIsPattern | app/utils/validation.ts:4-5 | the scanner and the pattern agree on every string |
| Validation.ValidEmailStructure | app/utils/validation.ts:4 | a valid address has no whitespace and an '@' that is neither the first nor the last character |
| Validation.ValidEmailIsNotBlank | app/utils/validation.ts:58-61 | a valid address is never blank, so the "invalid" message never masks a blank field |
| Validation.AllCharsSlice | app/utils/validation.ts:4 | a slice of text whose characters all pass a test passes it too |
| Validation.ValidatePassword | app/utils/validation.ts:8-22 | `None` exactly when the password has at least 8 characters, a lower-case letter, an upper-case letter and a digit; otherwise the message of the first failing check |
| Validation.ValidatePhoneNumber | app/utils/validation.ts:24-27 | true exactly when the input matches `^\+234[7-9][0-1]\d{8}$` |
| Validation.NameMeaning | app/utils/validation.ts:29-31 | a name is valid exactly when it holds two non-space characters at distinct positions (at least two characters after trimming), and a valid name is never blank |
| Validation.PhonePatternMeaning | app/utils/validation.ts:25 | the class sequence means: length 14, "+234", then 7-9, then 0-1, then eight digits |
| Validation.ValidPhoneIsNotBlank | app/utils/validation.ts:65-68 | a valid number is never blank |
| Validation.RequiredThenValid | app/utils/validation.ts:44-48 | the "required then valid" rule: the required message exactly when blank, the invalid message exactly when not blank but invalid, none otherwise |
| Validation.EmailError | app/utils/validation.ts:58-62 | the required message exactly when blank, the invalid message exactly when not blank and not matching, none exactly when valid |
| Validation.PasswordError | app/utils/validation.ts:72-79 | the required message exactly when empty (no trim), otherwise the first strength message, if any |
| Validation.ConfirmError | app/utils/validation.ts:82-86 | the confirm message exactly when empty, the mismatch message exactly when non-empty and different |
| Validation.ValidateSignupForm | app/utils/validation.ts:33-89 | every field's error, in both directions: required, too short or invalid, or none |
| Validation.SignupFieldsIndependent | app/utils/validation.ts:40-89 | each field's error depends only on that field (and the confirmation also on the password) |
| Validation.SignupAllValidHasNoErrors | app/utils/validation.ts:40-89 | a form whose fields all pass yields an empty error object |
| Validation.ValidateLoginForm | app/utils/validation.ts:91-108 | each field's error in both directions, and no error at all exactly when the address is valid and the password is non-empty |
| PostButton.LooksDisabled | app/reusables/PostButton.tsx:29 | greyed out only when disabled and never when forced enabled |
| PostButton.Fires | app/reusables/PostButton.tsx:39 | a press fires exactly when the button is not disabled |
| PostButton.ForceEnabledOnlyStyles | app/reusables/PostButton.tsx:29-39 | `forceEnabled` changes the look only: a forced-enabled disabled button is drawn active and still ignores presses |
| ProgressBar.SegmentCount | app/reusables/ProgressBar.tsx:11 | the number of segments is the step total, or none for a negative total |
| ProgressBar.Segments | app/reusables/ProgressBar.tsx:11-16 | segment `i` is active exactly when `i <= currentStep` |
| ProgressBar.ActiveSegments | app/reusables/ProgressBar.tsx:16 | for a step inside the bar, exactly `currentStep + 1` segments are lit |
| ProgressBar.ActivePrefix | app/reusables/ProgressBar.tsx:16 | among the first `n` segments, the lit ones are those up to the current step |
| ProgressBar.AdvanceKeepsSegmentsLit | app/reusables/ProgressBar.tsx:16 | moving forward never switches a segment off |
| Otp.ModalFilter | app/reusables/OTPModal.tsx:36-43 | a keystroke is forwarded exactly when it is at most one digit; focus moves on exactly for a non-empty value in boxes 0-2 |
| Otp.ModalForwardsClear | app/reusables/OTPModal.tsx:37-39 | clearing a box is forwarded and moves no focus |
| Otp.FiltersAgreeOnOneCharacter | app/auth/OTPVerification.tsx:37 | on a one-character value the modal's filter and the screens' filter agree |
| Otp.SetSlot | app/auth/OTPVerification.tsx:39-41 | only box `index` changes, and it holds the new value |
| Otp.SetSlotOverwrites | app/auth/OTPVerification.tsx:39-41 | a second write to a box replaces the first; writing a box's own value changes nothing |
| Otp.JoinLength | app/auth/OTPVerification.tsx:57-58 | on boxes of at most one character, the joined code is no longer than the number of boxes, and equal exactly when none is empty |
| Otp.FullIffFourCharacters | app/auth/OTPVerification.tsx:58-83 | on well-formed boxes, the four-character check and "no empty box" agree |
| Otp.EmptyOtpWellFormed | app/auth/OTPVerification.tsx:31 | the initial four empty boxes are well formed and count as empty |
| Otp.SetSlotKeepsWellFormed | app/reusables/OTPModal.tsx:37-38 | a forwarded keystroke keeps every box a digit or empty |
| Otp.OtpChange | app/auth/OTPVerification.tsx:35-47 | a non-empty value with a non-digit changes nothing; otherwise only box `index` changes (the reset-code screen's handler at app/auth/forgotPasswordVerificationScreen.tsx lines 32-44 is the same) |
| Otp.VerifyDisabled | app/auth/OTPVerification.tsx:83 | enabled exactly when every box is filled and no request is loading |
| OtpVerification.HandleVerify | app/auth/OTPVerification.tsx:56-79 | ignored unless the code has four characters; then the "Email is required for verification" toast exactly when the address is missing or empty, and otherwise the call with the address and the code; the success screen is pushed exactly when the call returned, an error toast (the thrown message, or "Invalid OTP. Please try again." for an empty one) shows exactly when it threw, and the loading flag is down afterwards |
| OtpVerification.EnabledVerifyHasFullCode | app/auth/OTPVerification.tsx:58-83 | an enabled Verify button always gets past the length check |
| OtpVerification.EnabledVerifyAnswers | app/auth/OTPVerification.tsx:56-83 | a press of the enabled button is always answered by exactly one of the success screen and an error toast |
| Otp.OtpChangeKeepsWellFormed | app/auth/OTPVerification.tsx:35-41 | a keystroke of at most one character keeps the boxes well formed |
| OtpVerification.MaskEmail | app/auth/OTPVerification.tsx:87-93 | no '@' or empty: unchanged; otherwise the first three and last two characters of the part before the first '@', "***", '@', and the text up to any second '@' |
| OtpVerification.TakeUntilAt | app/auth/OTPVerification.tsx:90 | the longest prefix without '@', which `split('@')[1]` keeps |
| OtpVerification.MaskHidesLocalPart | app/auth/OTPVerification.tsx:87-93 | the mask shows at most five characters of the local part and keeps a single-'@' domain whole |
| OtpVerification.MaskLongLocalPart | app/auth/OTPVerification.tsx:91-92 | a single-'@' address with a local part of five or more characters keeps exactly its first three and last two characters |
| OtpVerification.MaskedContact | app/auth/OTPVerification.tsx:96 | "No email provided" exactly when the address is missing or empty, the masked address otherwise |
| OtpVerification.ContactLineHidesLocalPart | app/auth/OTPVerification.tsx:87-96 | the line under the title shows at most five characters of the local part, and the whole domain of a single-'@' address |
| ForgotPasswordVerification.MaskedEmail | app/auth/forgotPasswordVerificationScreen.tsx:79 | the route's address when non-empty, the placeholder otherwise |
| ForgotPasswordVerification.AddressShownUnmasked | app/auth/forgotPasswordVerificationScreen.tsx:79 | this screen shows a single-'@' address in full, while the sign-up code screen shows it masked; for a local part of five or more characters without '*' the two lines differ |
| ForgotPasswordVerification.VerifyOtp | app/context/AuthContext.tsx:127-145 | never throws; shows the success toast exactly for a 200 or 201 answer; otherwise an error toast with the server's message, or "OTP verification failed" for an empty one, and for a failed request its message or "Failed to verify OTP. Please try again." |
| ForgotPasswordVerification.HandleVerifyAsWritten | app/auth/forgotPasswordVerificationScreen.tsx:53-71 | as written: any four-character code opens the reset screen, whatever the server said, after the toast `verifyOtp` showed, an error toast included |
| ForgotPasswordVerification.RejectedCodeStillNavigates | app/auth/forgotPasswordVerificationScreen.tsx:58-65 | a code rejected with status 400 shows the "Invalid OTP" error toast and still opens the reset screen |
| ForgotPasswordVerification.HandleVerify | app/auth/forgotPasswordVerificationScreen.tsx:53-71 | corrected: the reset screen opens, with the address and the code, exactly when the code has four characters and the server accepted it; otherwise the error toast stays |
| ForgotPasswordVerification.CorrectedAgreesOnSuccess | app/auth/forgotPasswordVerificationScreen.tsx:58-65 | the two versions agree on accepted codes and differ on every rejected four-character code |
| ForgotPasswordVerification.EnabledVerifyHasFullCode | app/auth/forgotPasswordVerificationScreen.tsx:55-77 | an enabled Verify button always gets past the length check |
| ForgotPassword.EmailChange | app/auth/forgot-password.tsx:35-40 | the field takes the text and the error is cleared |
| ForgotPassword.ContinueDisabled | app/auth/forgot-password.tsx:76 | enabled exactly when the address is not blank and matches the pattern |
| ForgotPassword.HandleContinue | app/auth/forgot-password.tsx:43-69 | blank: the required error; malformed: the invalid error; otherwise a request with the trimmed, lower-cased address; the code screen opens exactly when the request returned, and an error toast (the thrown message, or "Failed to send OTP. Please try again." for an empty one) shows exactly when it threw |
| ForgotPassword.ContinueMatchesSharedRule | app/auth/forgot-password.tsx:44-76 | the screen's errors are the shared validator's, and a request is sent exactly when Continue is enabled |
| ForgotPassword.RequestIsLowerCasedInput | app/auth/forgot-password.tsx:56 | a sent address is the lower-cased input, with no trimming needed |
| Login.LoginDisabled | app/auth/login.tsx:42-44 | enabled exactly when neither field is blank and no request is loading |
| Login.ClearFieldError | app/auth/login.tsx:74-82 | removes the field's error only when it holds a message; the other field's error is kept |
| Login.ClearFieldErrorIdempotent | app/auth/login.tsx:74-82 | clearing twice is clearing once |
| Login.Type | app/auth/login.tsx:112-131 | typing sets the field and clears its error, leaving the other field alone |
| Login.HandleLogin | app/auth/login.tsx:46-72 | loading: ignored; invalid: the first error is alerted and stored, with no toast; otherwise sign-in with the trimmed lower-cased address; onboarding opens exactly when sign-in returned, and an error toast (the thrown message, or "Invalid email or password. Please try again." for an empty one) shows exactly when it threw |
| Login.EnabledPressNeedsOnlyFormat | app/auth/login.tsx:42-57 | with the button enabled, only the address's format can stop the sign-in call |
| Login.SentEmailIsLowerCasedInput | app/auth/login.tsx:61 | the address sent is the lower-cased input |
| ResetPassword.ValidatePassword | app/auth/reset-password.tsx:36-40 | true exactly when at least 8 characters from letters, digits and `@$!%*#?&`, with a letter and a digit |
| ResetPassword.ValidPasswordIsNotBlank | app/auth/reset-password.tsx:36-40 | a valid password is not blank and trimming leaves it unchanged |
| ResetPassword.NewPasswordChange | app/auth/reset-password.tsx:42-47 | the new password takes the text and its error is cleared; the confirmation is untouched |
| ResetPassword.ConfirmPasswordChange | app/auth/reset-password.tsx:49-54 | the confirmation takes the text and its error is cleared; the new password is untouched |
| ResetPassword.NewPasswordError | app/auth/reset-password.tsx:60-66 | required exactly when blank, the format message exactly when not blank and invalid, none exactly when valid |
| ResetPassword.ConfirmError | app/auth/reset-password.tsx:68-75 | required exactly when blank, the mismatch message exactly when not blank and different |
| ResetPassword.HandleReset | app/auth/reset-password.tsx:56-93 | both checks run, a failing one sets its message and a passing one keeps the old message; the reset proceeds exactly when the password is valid and the confirmation equals it |
| ResetPassword.ResetDisabled | app/auth/reset-password.tsx:98-102 | enabled exactly when both fields are non-blank, equal and the password is valid |
| ResetPassword.EnabledIffProceeds | app/auth/reset-password.tsx:56-102 | the button is enabled exactly when a press would proceed |
| ResetPassword.BlockedPressExplains | app/auth/reset-password.tsx:60-77 | a press that does not proceed leaves an error message shown |
| CreateAccount.IsValidEmail | app/auth/create-account.tsx:92-94 | true exactly when the text contains '@' and '.' |
| CreateAccount.SharedValidatorIsStricter | app/auth/create-account.tsx:92-94 | every address the shared validator accepts passes this looser check |
| CreateAccount.IsFormValid | app/auth/create-account.tsx:96-103 | false without the box ticked; by e-mail, '@' and '.'; by phone, a non-blank number |
| CreateAccount.SubmitValue | app/auth/create-account.tsx:67 | the e-mail, or the dial code followed by the number |
| CreateAccount.HandleSubmit | app/auth/create-account.tsx:66-72 | submits the method and the value exactly when the value is not blank and the box is ticked |
| CreateAccount.EnabledButtonSubmits | app/auth/create-account.tsx:66-103 | an enabled button always submits |
| CreateAccount.PhoneValueNotBlank | app/auth/create-account.tsx:67-68 | a non-blank number keeps the dialled value non-blank |
| CreateAccount.NotBlankAt | app/auth/create-account.tsx:68 | a text with a non-whitespace character is not blank |
| CreateAccount.SelectCountry | app/auth/create-account.tsx:74-77 | the country is chosen and the picker closes; nothing else changes |
| CreateAccount.DefaultCountryIsNigeria | app/auth/create-account.tsx:28-63 | the default country is NG, so a phone sign-up sends "+234" and the number |
| CountryPicker.FilteredCountries | app/components/CountryCodePicker.tsx:41-46 | exactly the countries matching the query by name, dial code or code, each as often as before, in list order |
| CountryPicker.EmptyQueryKeepsAll | app/components/CountryCodePicker.tsx:41-46 | an empty query shows every country |
| CountryPicker.MatchesShorterQuery | app/components/CountryCodePicker.tsx:43-45 | a country matching a query matches each of its prefixes |
| CountryPicker.TypingNarrowsResults | app/components/CountryCodePicker.tsx:41-46 | typing more characters never adds a country to the list |
| CountryPicker.HandleCountrySelect | app/components/CountryCodePicker.tsx:48-52 | reports the country, closes the picker and clears the search |
| CountryPicker.ChoiceResetsSearch | app/components/CountryCodePicker.tsx:48-52 | after a choice the whole list is shown again |
| CountryPicker.CheckmarkFollowsChoice | app/components/CountryCodePicker.tsx:48-63 | after choosing, the checkmark moves to the rows with the chosen code |
| CountryPicker.OneCheckmark | app/components/CountryCodePicker.tsx:48-63 | with distinct codes, after choosing a country the checkmark shows on its row and on no other |
| PopupMenu.AdjustX | app/components/ProfileDetailsScreen.tsx:64 | the stored anchor's x keeps 220 pixels free to its right inside the window, never moves right of the press, and stays put when that room exists; the screens never read it when drawing |
| PopupMenu.AdjustY | app/components/ProfileDetailsScreen.tsx:63 | the stored anchor's y moves up by 120 exactly when the press is within 120 pixels of the bottom |
| PopupMenu.MenuPosition | app/components/ProfileDetailsScreen.tsx:59-66 | the stored anchor is the adjusted x and y |
| PopupMenu.MenuFitsWindow | app/components/ProfileDetailsScreen.tsx:63-64 | for a press inside the window, the stored anchor keeps 220 pixels free to its right and 120 below it inside the window, and never lies below the press |
| PopupMenu.AdjustXIdempotent | app/components/ProfileDetailsScreen.tsx:64 | adjusting an adjusted anchor x changes nothing |
| PopupMenu.DrawnMenu | app/components/ProfileDetailsScreen.tsx:520 | the drawn menu is 228 pixels wide |
| PopupMenu.DrawnMenuPlacement | app/components/ProfileDetailsScreen.tsx:280-285 | the drawn menu is placed the same for every x of the press, 20 pixels in from the right edge; its top is 10 pixels below the press, or 110 above it near the bottom, and then at least 110 pixels above the bottom |
| ProfileDetails.FilteredItems | app/components/ProfileDetailsScreen.tsx:49 | exactly the items whose status is the active tab, in list order |
| ProfileDetails.TabsPartitionItems | app/components/ProfileDetailsScreen.tsx:49 | every item appears under exactly one tab, and the two lists' lengths add up to the whole |
| ProfileDetails.DateLabel | app/components/ProfileDetailsScreen.tsx:250-253 | "Updated on" the update date on Available; "Traded on" the trade date, falling back to the update date, on Traded |
| ProfileDetails.ShownDatesMatchStatus | app/components/ProfileDetailsScreen.tsx:243-253 | on either tab, a listed item's date line starts "Traded on " exactly when the item is traded; a traded item with a recorded trade date shows that date, and an available item its update date |
| ProfileDetails.HeaderMenuPress | app/components/ProfileDetailsScreen.tsx:59-69 | records the adjusted anchor, opens the header menu and closes the item menu |
| ProfileDetails.ItemMenuPress | app/components/ProfileDetailsScreen.tsx:71-82 | records the adjusted anchor and the item, opens the item menu and closes the header menu |
| ProfileDetails.CloseMenus | app/components/ProfileDetailsScreen.tsx:85-89 | both menus closed and the selected item cleared |
| ProfileDetails.HeaderActionAsWritten | app/components/ProfileDetailsScreen.tsx:91-99 | as written: Block and Report make their callback and leave the menus as they were |
| ProfileDetails.BlockLeavesHeaderMenuOpen | app/components/ProfileDetailsScreen.tsx:91-94 | after Block from the header menu, the header menu is still drawn |
| ProfileDetails.HeaderAction | app/components/ProfileDetailsScreen.tsx:91-99 | corrected: the callback is made and both menus are closed |
| ProfileDetails.ItemReport | app/components/ProfileDetailsScreen.tsx:330-335 | the item menu's Report closes the menus and reports |
| ProfileDetails.HeaderActionMatchesItemReport | app/components/ProfileDetailsScreen.tsx:91-99 | the corrected header Report is the item menu's Report, and Block leaves the menus the same way |
| ProfileDetails.MenusStayValid | app/components/ProfileDetailsScreen.tsx:59-89 | over any run of presses, at most one menu is open and an open item menu knows its item and position |
| RatingsReviews.PressRatingButton | app/components/RatingsReviewsScreen.tsx:158-161 | toggles the rating list and closes the sort list; nothing else changes |
| RatingsReviews.PressSortButton | app/components/RatingsReviewsScreen.tsx:169-172 | toggles the sort list and closes the rating list; nothing else changes |
| RatingsReviews.SelectRating | app/components/RatingsReviewsScreen.tsx:56-59 | the rating label is set and its list closes; the sort state is kept |
| RatingsReviews.SelectSort | app/components/RatingsReviewsScreen.tsx:61-64 | the sort label is set and its list closes; the rating state is kept |
| RatingsReviews.HeaderMenuPress | app/components/RatingsReviewsScreen.tsx:76-86 | records the adjusted anchor and opens the header menu; nothing else changes |
| RatingsReviews.CloseMenus | app/components/RatingsReviewsScreen.tsx:88-91 | the header menu closes; nothing else changes |
| RatingsReviews.HeaderActionAsWritten | app/components/RatingsReviewsScreen.tsx:94-102 | as written: Block and Report make their callback and leave the page as it was |
| RatingsReviews.ReportLeavesHeaderMenuOpen | app/components/RatingsReviewsScreen.tsx:99-102 | after Report from the header menu, the header menu is still open |
| RatingsReviews.HeaderAction | app/components/RatingsReviewsScreen.tsx:94-102 | corrected: the callback is made and the header menu closes |
| RatingsReviews.RenderStars | app/components/RatingsReviewsScreen.tsx:103-113 | five stars, the first three filled |
| RatingsReviews.StarsIgnoreRating | app/components/RatingsReviewsScreen.tsx:103-110 | the stars drawn do not depend on the rating passed |
| RatingsReviews.DropdownsStayExclusive | app/components/RatingsReviewsScreen.tsx:56-64 | over any run of presses, header-menu presses included, the rating and sort lists are never open together |
| RatingsReviews.CallbackOf | app/components/RatingsReviewsScreen.tsx:278-303 | a callback is made exactly by a header entry while the header menu is drawn |
| RatingsReviews.HeaderEntryClosesMenu | app/components/RatingsReviewsScreen.tsx:88-102 | corrected: after a header entry's callback the header menu is closed and nothing else changed |
| HomeFilters.Set | app/protected/Home/index.tsx:380-429 | the chosen filter takes the value and the others keep theirs |
| HomeFilters.ToggleDropdown | app/protected/Home/index.tsx:80-95 | pressing the open list's button closes it; any other button opens its own list; the filters are untouched |
| HomeFilters.ToggleTwiceRestores | app/protected/Home/index.tsx:80-95 | pressing the same button twice restores the bar |
| HomeFilters.LastButtonWins | app/protected/Home/index.tsx:80-95 | of two different buttons pressed in turn, the second one's list is open |
| HomeFilters.SelectOption | app/protected/Home/index.tsx:375-430 | an option sets its filter, keeps the others and closes the list |
| HomeFilters.ResetFilters | app/protected/Home/index.tsx:56-75 | all filters return to their defaults and no list is open |
| HomeFilters.ResetUndoesSelections | app/protected/Home/index.tsx:56-75 | a reset after a selection gives the initial bar; resetting twice is resetting once |
| HomeFilters.ChoiceDiffersFromDefault | app/protected/Home/index.tsx:50-54 | picking any listed option moves the filters off the defaults |
| SwipeDeck.ClassifyRelease | app/protected/Home/index.tsx:122-130 | a like exactly when `dx > 120`, a skip exactly when `dx < -120`, a snap-back otherwise |
| SwipeDeck.ClassifyMonotone | app/protected/Home/index.tsx:122-130 | dragging further right never turns a like into a snap-back or a snap-back into a skip |
| SwipeDeck.ThresholdSnapsBack | app/protected/Home/index.tsx:123-126 | exactly ±120 snaps back; just beyond it commits |
| SwipeDeck.DecisionFor | app/protected/Home/index.tsx:144-150 | the callback names the card's id, and it is a like exactly for a right swipe |
| SwipeDeck.ForceSwipe | app/protected/Home/index.tsx:135-153 | decides the card under the cursor, moves the cursor on by one and resets the card's offset |
| SwipeDeck.Drag | app/protected/Home/index.tsx:120-122 | the card follows the finger; the cursor is kept |
| SwipeDeck.LetGo | app/protected/Home/index.tsx:123-131 | corrected: a snap-back makes no callback and resets the offset; a commit is `forceSwipe` on the current card |
| SwipeDeck.PressButton | app/protected/Home/index.tsx:196-217 | the heart or cross decides the card under the cursor and moves on |
| SwipeDeck.ButtonIsGesture | app/protected/Home/index.tsx:196-217 | a button press and a committed swipe in the same direction have the same effect |
| SwipeDeck.RenderCard | app/protected/Home/index.tsx:163-166 | the card at the cursor is on top, earlier cards are not drawn |
| SwipeDeck.NoMoreIffNoTopCard | app/protected/Home/index.tsx:450-457 | "No more trades" shows exactly when no card is on top |
| SwipeDeck.Respond | app/protected/Home/index.tsx:117-153 | corrected: a drag makes no callback, a button always does, and any callback is about the top card and moves the cursor on by exactly one |
| SwipeDeck.Made | app/protected/Home/index.tsx:144-150 | an action makes at most one callback, and none exactly when the card is not swiped away |
| SwipeDeck.PrependInOrder | app/protected/Home/index.tsx:144-153 | a decision about the card under the cursor followed by decisions in order from the next card is a run in order |
| SwipeDeck.PlayDecidesInOrder | app/protected/Home/index.tsx:117-153 | corrected: over any run, the cursor moves by the number of callbacks, stays within the list, and the callbacks decide the cards in list order |
| SwipeDeck.ThreeCardScenario | app/protected/Home/index.tsx:117-153 | corrected: like, skip, like on three cards decides them in turn and shows the empty deck |
| SwipeDeck.LetGoAsWritten | app/protected/Home/index.tsx:117-153 | as written: every committed gesture decides the first card and sets the cursor to 1 |
| SwipeDeck.StaleGestureRepeatsFirstCard | app/protected/Home/index.tsx:117-153 | two liking gestures on two cards decide the first card twice, where the corrected release decides the second |
| Preferences.SelectedCount | app/components/SetPreference.tsx:16 | at most the list length, and zero exactly when none is selected |
| Preferences.SelectedCountIsFilterLength | app/components/SetPreference.tsx:16 | the count is the length of `filter(p => p.selected)` |
| Preferences.Find | app/post-account/onboarding.tsx:55 | `None` exactly when no entry has the id; otherwise the first entry with it |
| Preferences.Toggle | app/post-account/onboarding.tsx:53-60 | ids, names and length kept, other entries unchanged; when allowed, every entry with the id flips; when forbidden, nothing changes |
| Preferences.ToggleUnknownId | app/post-account/onboarding.tsx:53-60 | toggling an id no entry has changes nothing |
| Preferences.CountAfterFlipAt | app/post-account/onboarding.tsx:54-58 | flipping one entry changes the count by one in its direction |
| Preferences.SameSelectionSameCount | app/components/SetPreference.tsx:16 | lists with the same selection flags have the same count |
| Preferences.InitialWithinCap | app/constants/data.ts:14-27 | the initial list has nothing selected and is within the cap |
| Preferences.InitialIdsUnique | app/constants/data.ts:14-27 | the initial ids are distinct |
| Preferences.ToggleKeepsCap | app/post-account/onboarding.tsx:53-60 | a toggle never takes the selection past three |
| Preferences.ToggleUnselectedAddsOne | app/post-account/onboarding.tsx:53-60 | below three, selecting an unselected entry with a unique id adds exactly one to the count |
| Preferences.TogglesNeverExceedCap | app/post-account/onboarding.tsx:53-60 | any run of toggles keeps at most three selected |
| Preferences.InitialTogglesWithinCap | app/post-account/onboarding.tsx:53-60 | from the initial list, any run of toggles selects at most three |
| Preferences.DeselectAlwaysSucceeds | app/post-account/onboarding.tsx:57-58 | a selected entry can always be deselected |
| Preferences.PressBubble | app/components/SetPreference.tsx:30-34 | the bubble stays silent exactly when it is unselected and three are selected; otherwise it reports its id |
| Preferences.BubbleAgreesWithHandler | app/components/SetPreference.tsx:30-34 | the bubble's guard and the wizard's guard agree: a silent press is one the handler would ignore |
| Preferences.ContinueFires | app/components/SetPreference.tsx:199-202 | Continue fires exactly when at least three are selected |
| Preferences.ContinueAtCap | app/components/SetPreference.tsx:199-202 | within the cap, Continue fires exactly at three |
| CreateTrade.IsFormValid | app/components/CreateTrade.tsx:85-86 | valid exactly when category, title and day are non-empty and there is a photo |
| CreateTrade.OnlyRequiredFieldsMatter | app/components/CreateTrade.tsx:85-86 | drafts agreeing on the four required fields agree on validity |
| CreateTrade.PreviewFires | app/components/CreateTrade.tsx:333 | Preview fires exactly when the form is valid |
| CreateTrade.EmptyTradeCannotPreview | app/components/CreateTrade.tsx:333 | the empty draft cannot be previewed |
| CreateTrade.AddPhoto | app/components/CreateTrade.tsx:51-76 | a returned asset appends its uri and nothing else changes; a cancel changes nothing; a failure alerts |
| CreateTrade.AddPhotoAppends | app/components/CreateTrade.tsx:51-76 | adding a photo makes it the last one and keeps the others in order |
| CreateTrade.RemovePhoto | app/components/CreateTrade.tsx:78-83 | every copy of the uri is removed, the others stay in order, nothing else changes |
| CreateTrade.RemoveUndoesAdd | app/components/CreateTrade.tsx:51-83 | removing a newly added uri that was not there before restores the draft |
| CreateTrade.EditText | app/components/CreateTrade.tsx:146 | the edited field takes the text and the others are kept |
| CreateTrade.EditTextRestores | app/components/CreateTrade.tsx:146 | typing a field's own text back changes nothing |
| CreateTrade.ToggleCurrentLocation | app/components/CreateTrade.tsx:317 | flips the flag, nothing else |
| CreateTrade.ToggleCurrentLocationTwice | app/components/CreateTrade.tsx:317 | two presses restore the draft |
| CreateTrade.Apply | app/components/CreateTrade.tsx:108-300 | one press on the form: list buttons, list choices, photo and text edits |
| CreateTrade.ListsStayExclusive | app/components/CreateTrade.tsx:218-300 | over any run of presses, the day and time lists are never open together |
| CreateTrade.DayAndTimeCommute | app/components/CreateTrade.tsx:246-295 | choosing a day and a time in either order gives the same draft |
| CompleteProfile.MergeInputs | app/components/CompleteProfile.tsx:43-50 | phone, username and bio take the inputs' texts, and the photo is kept |
| CompleteProfile.MergeIdempotent | app/components/CompleteProfile.tsx:43-50 | pushing the inputs twice is pushing them once |
| CompleteProfile.UploadPhoto | app/components/CompleteProfile.tsx:53-75 | a returned asset's uri becomes the photo, and otherwise nothing is pushed; the "Failed to pick image. Please try again." alert shows exactly when the picker failed |
| CompleteProfile.RemovePhoto | app/components/CompleteProfile.tsx:121 | the photo is hidden and the texts are kept |
| CompleteProfile.UploadThenRemove | app/components/CompleteProfile.tsx:53-75 | an upload shows the photo and removing it clears it, touching nothing else |
| CompleteProfile.IsFormValid | app/components/CompleteProfile.tsx:92 | valid exactly when the phone has a non-whitespace character |
| CompleteProfile.PressContinue | app/components/CompleteProfile.tsx:169-173 | opens the OTP modal when enabled, never continues and never alerts |
| CompleteProfile.OtpChange | app/components/CompleteProfile.tsx:77-81 | only box `index` changes |
| CompleteProfile.Verify | app/components/CompleteProfile.tsx:83-90 | continues, closing the modal, exactly when the code has four characters; otherwise alerts and changes nothing |
| CompleteProfile.CloseModal | app/components/CompleteProfile.tsx:178-184 | the modal closes and the boxes are kept |
| CompleteProfile.ContinueOnlyThroughVerify | app/components/CompleteProfile.tsx:77-90 | `onContinue` is called only by Verify with every box filled, and the boxes stay well formed |
| CompleteProfile.SplitFrom | app/components/CompleteProfile.tsx:162 | `split(/\s+/)` yields at least one piece |
| CompleteProfile.WordCount | app/components/CompleteProfile.tsx:162 | zero exactly when the bio is blank |
| CompleteProfile.WordCountCountsWords | app/components/CompleteProfile.tsx:162 | the counter equals the number of maximal runs of non-whitespace characters |
| CompleteProfile.TrimKeepsWords | app/components/CompleteProfile.tsx:162 | trimming removes no word |
| CompleteProfile.TrimEndKeepsWords | app/components/CompleteProfile.tsx:162 | trailing whitespace holds no word |
| CompleteProfile.SplitCountsWords | app/components/CompleteProfile.tsx:162 | on trimmed text, the pieces of the split are the words |
| CompleteProfile.LeadingSpaceHoldsNoWord | app/components/CompleteProfile.tsx:162 | leading whitespace holds no word |
| CompleteProfile.TrailingSpaceHoldsNoWord | app/components/CompleteProfile.tsx:162 | trailing whitespace holds no word |
| CompleteProfile.AllSpaceHoldsNoWord | app/components/CompleteProfile.tsx:162 | whitespace alone holds no word |
| SwapDistance.Clamp | app/components/SetSwapDistance.tsx:43 | the result lies on the track, equals the input when it already does, and is the nearer end otherwise |
| SwapDistance.Round | app/components/SetSwapDistance.tsx:50 | `Math.round`: within half a unit, halves rounded up |
| SwapDistance.RoundIsNearest | app/components/SetSwapDistance.tsx:50 | no integer is nearer than the rounding |
| SwapDistance.Dist | app/components/SetSwapDistance.tsx:50 | the distance between two track positions |
| SwapDistance.StepsOnTrack | app/components/SetSwapDistance.tsx:49-50 | a point on the track lies between 0 and 4 steps |
| SwapDistance.MoveThumb | app/components/SetSwapDistance.tsx:40-45 | the thumb stays on the track and follows the finger while it is on it |
| SwapDistance.Release | app/components/SetSwapDistance.tsx:46-62 | the reported distance is between 1 and 5, its stop is the one nearest to the release point, and the thumb springs to it |
| SwapDistance.StillReleaseKeepsDistance | app/components/SetSwapDistance.tsx:29-54 | releasing without movement from a stop reports that stop |
| SwapDistance.ReleaseMonotone | app/components/SetSwapDistance.tsx:46-54 | dragging further right never reports a shorter distance |
| SwapDistance.ReleaseAsWritten | app/components/SetSwapDistance.tsx:29-51 | as written: the drag starts from the distance the slider was mounted with |
| SwapDistance.StaleStartJumpsBack | app/components/SetSwapDistance.tsx:29-51 | mounted at 4 and moved to 2, a tap jumps back to 4 |
| SwapDistance.ReleaseSlider | app/components/SetSwapDistance.tsx:36-54 | corrected: the drag starts from the distance currently held; the result is between 1 and 5 |
| SwapDistance.TapKeepsDistance | app/components/SetSwapDistance.tsx:36-54 | corrected: a tap keeps whatever distance is held |
| SwapDistance.ContinueFires | app/components/SetSwapDistance.tsx:121 | Continue is never disabled on this page |
| ProfileSetup.ToggleCategory | app/auth/profile.tsx:57-63 | a selected category is removed with the rest kept in order; an unselected one is appended below three and ignored at three |
| ProfileSetup.NoDuplicatesCountsOnce | app/auth/profile.tsx:57-63 | without duplicates, every category occurs at most once |
| ProfileSetup.CountsOnceNoDuplicates | app/auth/profile.tsx:57-63 | occurring at most once means no duplicates |
| ProfileSetup.ToggleKeepsCap | app/auth/profile.tsx:57-63 | a toggle keeps the selection duplicate-free and at most three long |
| ProfileSetup.TogglesKeepCap | app/auth/profile.tsx:57-63 | any run of toggles does too |
| ProfileSetup.InitialTogglesKeepCap | app/auth/profile.tsx:52-63 | from the initial "Electronics", any run of toggles gives at most three distinct categories |
| ProfileSetup.ToggleTwiceRestores | app/auth/profile.tsx:57-63 | toggling a new category on and off below the cap restores the selection |
| ProfileSetup.IsFormValid | app/auth/profile.tsx:113 | valid exactly when the username has a non-whitespace character |
| ProfileSetup.HandleComplete | app/auth/profile.tsx:101-111 | completes exactly when the form is valid, with the username, bio, categories and radius as entered |
| ProfileSetup.InitialFormCompletes | app/auth/profile.tsx:101-111 | the initial form completes as "John" with "Electronics" |
| ProfileSetup.PickImage | app/auth/profile.tsx:70-93 | a returned asset becomes the picture, and otherwise nothing changes; the "Error, Failed to pick Image. Please try again." alert shows exactly when the picker failed |
| ProfileSetup.RemoveImage | app/auth/profile.tsx:95-98 | the picture is cleared, nothing else changes |
| ProfileSetup.PickThenRemove | app/auth/profile.tsx:70-111 | removing a picked image is removing the old one, and the picture never affects completion |
| Onboarding.HandleNext | app/post-account/onboarding.tsx:47-51 | with the pages shown and a page left, the step advances by one; otherwise nothing changes |
| Onboarding.HandlePreferenceToggle | app/post-account/onboarding.tsx:53-60 | only the preference list changes, ids keep their places, a forbidden toggle changes nothing |
| Onboarding.HandlePublish | app/post-account/onboarding.tsx:62-64 | the success screen is set |
| Onboarding.Render | app/post-account/onboarding.tsx:71-130 | the success screen exactly when set; otherwise the preview exactly when set; otherwise the bar over the pages, lit up to the step |
| Onboarding.Step | app/post-account/onboarding.tsx:47-130 | corrected: events from unmounted screens or pages not on show, and Finish, change nothing; only Continue moves the step, by one and never past 4; Continue on the preferences page is refused below three selections, and the preview opens only from the trade page with a valid draft |
| Onboarding.InitialValid | app/post-account/onboarding.tsx:22-44 | the start is on page 0 with at most three preferences selected and distance 4, so it satisfies the invariant |
| Onboarding.InitialRender | app/post-account/onboarding.tsx:71-87 | the wizard opens on page 0 with exactly the first of five segments lit |
| Onboarding.StepKeepsValid | app/post-account/onboarding.tsx:47-130 | any event keeps the step at most 4, at most three preferences and the distance in 1-5 |
| Onboarding.RunKeepsValid | app/post-account/onboarding.tsx:47-130 | any run keeps the wizard valid and never moves the step back |
| Onboarding.OnboardingStaysValid | app/post-account/onboarding.tsx:22-130 | every run from the start is valid, with at most three preferences selected |
| Onboarding.SuccessIsFinal | app/post-account/onboarding.tsx:66-78 | once published, no event changes the wizard and the success screen stays |
| Onboarding.PreviewBackRestores | app/post-account/onboarding.tsx:92-97 | corrected: preview of a valid draft then back restores the wizard state and shows the pages again |
| Onboarding.ContinueReachesTradePage | app/post-account/onboarding.tsx:47-51 | with three preferences selected, four presses of Continue from the first page reach the trade page, and a fifth does nothing |
| Onboarding.ContinueStopsAtPreferences | app/components/SetPreference.tsx:199-202 | without three preferences selected, Continue alone from the first page stops at the preferences page |
| Onboarding.StartStopsAtPreferences | app/components/SetPreference.tsx:199-202 | from the start, where nothing is selected, Continue alone stops at the preferences page |
| Onboarding.PreferencesPageGatesContinue | app/components/SetPreference.tsx:199-202 | with two preferences selected, Continue is refused and the step stays 2; after selecting a third, Continue moves to the slider page |
| Onboarding.PagerContinue | app/post-account/onboarding.tsx:47-51 | a Continue on pages 0 to 3 moves the carousel on by one page and records that page as the step, and is refused at step 4 |
| Onboarding.PagerOpenPreview | app/post-account/onboarding.tsx:130 | Preview raises the preview from the trade page only, leaving page and step alone |
| Onboarding.PagerStepAsWritten | app/post-account/onboarding.tsx:91-104 | as written: closing the preview remounts the carousel on page 0 with the step kept, and this is the one event where it parts from the corrected carousel |
| Onboarding.BackFromPreviewStrands | app/post-account/onboarding.tsx:47-104 | as written: Preview then Back from the trade page shows the location page at step 4, and no later press moves the carousel |
| Onboarding.PagerStep | app/post-account/onboarding.tsx:91-104 | corrected: closing the preview returns to the recorded page, and a carousel in step with the wizard stays in step |
| Onboarding.PagerStaysInStep | app/post-account/onboarding.tsx:47-104 | corrected: over any run, the page shown is the step recorded |
| Onboarding.PagerBackRestores | app/post-account/onboarding.tsx:91-104 | corrected: Preview then Back from the trade page returns to the trade page |

## Left out

- Animation is not modelled: card flights, springs, the slider's thumb animation, the action-sheet slide. Only the state that the animations' completion callbacks set is modelled.
- Network and storage are left out. The auth context's calls (sign-in, e-mail verification, forgot password) appear only as parameters: whether the call returned, or the message of the error it threw. `verifyOtp` is the exception; it is modelled, with the server's reply as the parameter, because the screen's navigation depends on it.
- Toasts and alerts are modelled as text values. `console` logging is left out.
- The image picker and geolocation are outside the model. Their results are the `PickerResult` parameter.
- Navigation is outside the model. Route pushes are outcome values, except the push after profile setup (see below), and route parameters are inputs.
- `JsText.ToLower` lowers ASCII letters only; full Unicode case mapping is not modelled. Strings are sequences of characters, not UTF-16 code units.
- Country flags (emoji) are not modelled. The world-country list the picker is given is data, and `app/data/world-country` is not part of this model.
- Onboarding.Step: the carousel remounting on page 0 after the preview closes is not modelled there; the wizard's step is taken to be the page shown, as in the corrected `Onboarding.PagerStep`. The remount is modelled on its own by `Onboarding.PagerStepAsWritten`; see Findings.
- Onboarding.Step: the window width is assumed wider than the slider inset. A release on a track of non-positive width is ignored.
- Onboarding.Step: a slider release starts from the distance the wizard holds (`SwapDistance.ReleaseSlider`), not from the mount-time distance the code as written uses; see Findings.
- Onboarding.Step: the location page's Continue is not gated on a chosen location, because its current-location path continues without one. The profile page's continue is not gated here either; that page states its own guard (`CompleteProfile.ContinueOnlyThroughVerify`).
- SwipeDeck.Respond: a released gesture decides the card under the cursor (`SwipeDeck.LetGo`), not the first card as the code as written does; see Findings. `Play`, `PlayDecidesInOrder` and `ThreeCardScenario` inherit this.
- SwipeDeck.PlayDecidesInOrder: each button press is assumed to finish its 250 ms swipe animation before the next event. A second press inside that window likes the same card again and the cursor still moves by one; overlapping animations are not modelled.
- RatingsReviews.Step: a header entry uses the corrected `RatingsReviews.HeaderAction`, which closes the header menu; as written the menu stays open (see Findings). `DropdownsStayExclusive` holds for both.
- ProfileDetails.Step: a header entry uses the corrected `ProfileDetails.HeaderAction`, which closes both menus; as written the header menu stays open (see Findings). `MenusStayValid` holds for both.
- OtpVerification.HandleVerify: the success toast shown inside `verifyEmail`, the 1.5 s delay before the push and the `console` logging are not modelled; the loading flag is modelled only as it stands once the press is over.
- Optional callbacks (`onBlockUser?.()`, `onReportUser?.()`, `onComplete?.()`, `onSubmit?.()`) are always reported as made; the case where the parent passes no callback is not modelled.
- ResetPassword.HandleReset: the simulated delay and the navigation after a successful reset are not modelled. Only the decision to proceed is modelled.
- Widget limits (`maxLength`, keyboard types) are not modelled. `Otp` states which keystrokes the handlers accept from any input.
- The location page, the trade preview and the success screen are not modelled. Only their callbacks into the wizard (select, back, publish, finish) appear.
- ProfileSetup.HandleComplete: the `console` logging, the push to `/auth/premium` and the later upload are left out. Completion is modelled as the profile data handed on.
- Reviews list: the screen never applies the chosen rating or sort order to the reviews, so the model has no filtering or sorting to state; the list is drawn as given.

## Findings

| source | as written | input that shows it | evidently intended | confidence | as-written member | corrected member |
|---|---|---|---|---|---|---|
| app/auth/forgotPasswordVerificationScreen.tsx:58-65 | navigates to the reset screen whenever `verifyOtp` returns, but `verifyOtp` catches every failure, shows its error toast and returns normally | code "1234", server answers 400 "Invalid OTP" | open the reset screen only for an accepted code, and not right after an error toast | not executed | ForgotPasswordVerification.HandleVerifyAsWritten | ForgotPasswordVerification.HandleVerify |
| app/protected/Home/index.tsx:117-153 | the pan responder is built once inside `useRef`, so a released gesture calls the first render's `forceSwipe`, which reads `currentIndex` as 0 | two cards, swipe right twice | each swipe decides the card on top | not executed | SwipeDeck.LetGoAsWritten | SwipeDeck.LetGo |
| app/components/SetSwapDistance.tsx:29-51 | the pan responder is built once inside `useRef`, so the drag starts from the distance the slider was mounted with | mounted at 4, moved to 2, then a tap on the thumb | the drag starts from the distance currently held | not executed | SwapDistance.ReleaseAsWritten | SwapDistance.ReleaseSlider |
| app/components/ProfileDetailsScreen.tsx:91-99 | Block and Report in the header menu call `closeMenu` (the action sheet) instead of `closeMenus` | open the header menu, press "Block this trader" | close the header menu, as the item menu's Report does | not executed | ProfileDetails.HeaderActionAsWritten | ProfileDetails.HeaderAction |
| app/components/RatingsReviewsScreen.tsx:94-102 | Block and Report call `closeMenu` (the action sheet) instead of `closeMenus` | open the header menu, press Report | close the header menu | not executed | RatingsReviews.HeaderActionAsWritten | RatingsReviews.HeaderAction |
| app/post-account/onboarding.tsx:98-104 | the carousel has no `index` prop, so when the preview closes it mounts again on page 0 while `currentStep` stays 4, and the location page's Continue is refused by the `currentStep < 4` guard | fill in the pages up to the trade page, press Preview, then Back, then Continue | return to the trade page | not executed | Onboarding.PagerStepAsWritten | Onboarding.PagerStep |
