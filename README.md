# YummiLytics onboarding core, modelled in Dafny

YummiLytics onboards a restaurant owner through an account set-up wizard. The owner
creates a company, either on the company creation page or with the company form. They
then create the first location of that company, and its form is pre-filled from the
company. This project models the logic behind that flow:

- **The multi-step wizard** (`MultiStepper`), built from these parts:
  - a step counter with guarded and unguarded forward and backward moves;
  - `hasNext` and `hasPrev`;
  - the clamp that reconciles an externally set step with the number of steps, and the effect that writes the clamped step back;
  - the ordering of the steps by their `order`;
  - `createSteps`;
  - the completed, active and pending status of each circle and connector of the progress indicator.
- **Address splitting and rebuilding** (`AddressMapping`). A free-text address plus an optional second line is cut at its first space. The result is a stored building number and street. Going the other way, the street is split at its first comma to rebuild the address and the second line.
- **Form field rules** (`FormRules`, `CreateLocation`, `CreateCompany`, `CompanyCreationPage`):
  - length limits;
  - the ZIP, state and year rules;
  - the phone pattern;
  - the segment and category refinement;
  - the `mapValues` of the location form and of both company forms.
- **The location form's defaults** (`CreateLocation.DefaultValues`, `CreateLocationForm`), taken from the user's company.
- **Company display helpers** (`CompanyUtils`): the street address, the full postal address and the formatted phone number.
- **The route guard run after authentication** (`Middleware`).
- **The user slice of the client store** (`UserStore`) and its shallow merge.

`JsString` gives the JavaScript string operations these rely on their ECMAScript meaning:
`substring` clamps and swaps its bounds, and `indexOf` returns -1 when the character is
absent. It also covers `split`, `join`, `trim`, `startsWith`, `includes`, `||` on
nullable strings, `parseInt` and `toString` on non-negative integers, and the two digit
matches `/\d+/` and `/\d+/g`. `Wrappers` holds `Option` and `Result`, and `CompanyModel`
holds the company and user records.

The wizard state and the store are classes whose methods update their fields in place.
Everything else is pure functions, with lemmas about them.

While there are steps and only guarded moves are made, `currentStep` lies in `[0, n-1]`
for n steps (`MultiStepper.GuardedNavigationStaysInRange`), and the clamp brings an
out-of-range value back into that range. The code does not bound the step when there are
no steps, nor after unchecked navigation:

- With zero steps, `currentStep` is any non-negative step, unchanged (`MultiStepper.ClampUnboundedWithoutSteps`).
- `nextStep()` without an argument and `prevStep(true)` are not bounded at all (`MultiStepper.UncheckedNextIsUnbounded`, `MultiStepper.UncheckedPrevGoesNegative`). The clamp only corrects the shown step afterwards.

## Model

| member | source | states |
|---|---|---|
| MultiStepper.StepperState.constructor | src/components/ui/mutlistepper.tsx:23 | a wizard starts at step 0 |
| MultiStepper.StepperState.HasNext | src/components/ui/mutlistepper.tsx:49-57 | true exactly when the step is below the number of steps minus one, where an array argument counts by its length |
| MultiStepper.StepperState.HasPrev | src/components/ui/mutlistepper.tsx:59-61 | true exactly when the step is positive |
| MultiStepper.StepperState.NextStep | src/components/ui/mutlistepper.tsx:25-36 | the new step is the one `AfterNext` gives for the old step and the argument |
| MultiStepper.StepperState.PrevStep | src/components/ui/mutlistepper.tsx:38-47 | the new step is the one `AfterPrev` gives for the old step and `noCheck` |
| MultiStepper.StepperState.SetStep | src/components/ui/mutlistepper.tsx:23 | the host can set any step value |
| MultiStepper.StepperState.AutoCorrect | src/components/ui/mutlistepper.tsx:97-101 | the step becomes the clamped step when it differs and auto-state is enabled; otherwise it is kept |
| MultiStepper.AfterNext | src/components/ui/mutlistepper.tsx:25-36 | a call without argument always adds one; with an argument the step moves by at most one, and it stays put when it is not below the count minus one |
| MultiStepper.AfterPrev | src/components/ui/mutlistepper.tsx:38-47 | `prevStep(true)` always subtracts one; otherwise the step moves by at most one, and it stays put at 0 or below |
| MultiStepper.NextStepIsGuarded | src/components/ui/mutlistepper.tsx:25-36 | `nextStep(n)` adds one exactly when step < n-1, and otherwise leaves the step unchanged |
| MultiStepper.PrevStepIsGuarded | src/components/ui/mutlistepper.tsx:38-47 | `prevStep()` subtracts one exactly when the step is positive, and otherwise leaves it unchanged |
| MultiStepper.GuardedNavigationStaysInRange | src/components/ui/mutlistepper.tsx:25-61 | any sequence of `nextStep(n)` and `prevStep()` calls keeps a valid step of an n-step wizard valid |
| MultiStepper.UncheckedNextIsUnbounded | src/components/ui/mutlistepper.tsx:28-31 | k calls of `nextStep()` without an argument advance by exactly k, with no upper bound |
| MultiStepper.UncheckedPrevGoesNegative | src/components/ui/mutlistepper.tsx:39-42 | `prevStep(true)` always subtracts one, so it takes step 0 to -1, where `prevStep()` stays at 0 |
| MultiStepper.WalkThreeSteps | src/components/ui/mutlistepper.tsx:22-61 | a three-step wizard goes 0, 1, 2, stays at 2 when asked for more, and comes back to 1; `hasPrev` is false at the start and `hasNext` false at the end |
| MultiStepper.CurrentStep | src/components/ui/mutlistepper.tsx:90-95 | the clamp is never negative and below the step count when there are steps; it keeps a valid step, turns a negative step into 0 and a step past the end into the last index |
| MultiStepper.ClampUnboundedWithoutSteps | src/components/ui/mutlistepper.tsx:90-95 | with zero steps, a non-negative step, however large, is returned unchanged |
| MultiStepper.ClampIdempotent | src/components/ui/mutlistepper.tsx:90-95 | clamping a clamped step changes nothing |
| MultiStepper.Correction | src/components/ui/mutlistepper.tsx:97-101 | the effect calls `setStep` exactly when the step differs from its clamp and auto-state is enabled, and then passes the clamped value |
| MultiStepper.CorrectionSettles | src/components/ui/mutlistepper.tsx:97-101 | after one correction, a second evaluation corrects nothing, and with auto-state on the step ends up clamped |
| MultiStepper.ClampScenarios | src/components/ui/mutlistepper.tsx:90-101 | step 5 of 3 shows and writes back 2; step 2 after shrinking to one step shows 0; with auto-state disabled nothing is written back |
| MultiStepper.SortByOrder | src/components/ui/mutlistepper.tsx:86-88 | the sort keeps the number of children (its order, permutation and stability are stated by the three lemmas below) |
| MultiStepper.AllSteps | src/components/ui/mutlistepper.tsx:84-88 | a single child becomes exactly the one-element list holding it; an array keeps its length |
| MultiStepper.SortByOrderSortedPermutation | src/components/ui/mutlistepper.tsx:86-88 | sorting the children gives ascending `order ?? 0` and a permutation of the children |
| MultiStepper.SortByOrderStable | src/components/ui/mutlistepper.tsx:86-88 | children with equal order keep their relative order |
| MultiStepper.SortByOrderKeepsSorted | src/components/ui/mutlistepper.tsx:86-88 | children already in order come out unchanged |
| MultiStepper.AllStepsOrdering | src/components/ui/mutlistepper.tsx:84-88 | a single child becomes a one-element list; an array becomes a stably sorted permutation of the same length |
| MultiStepper.CreateSteps | src/components/ui/mutlistepper.tsx:66-72 | one step per object, in the same order, with the same title and content and no order |
| MultiStepper.CreatedStepsKeepTheirOrder | src/components/ui/mutlistepper.tsx:66-88 | steps from `createSteps` pass through the sort in the order given |
| MultiStepper.StepComponent | src/components/ui/mutlistepper.tsx:103 | the shown step is the one at the clamped index, and there is none exactly when there are no steps |
| MultiStepper.Indicators | src/components/ui/mutlistepper.tsx:123-129 | one circle per step; circle i is completed exactly when currentStep > i and active exactly when currentStep == i |
| MultiStepper.StatusOf | src/components/ui/mutlistepper.tsx:126-128 | a circle is completed exactly when its index is below the current step, active exactly when it equals it, and pending exactly when it is above |
| MultiStepper.Connectors | src/components/ui/mutlistepper.tsx:112-121 | one connector before each circle but the first; the connector before circle i is highlighted exactly when currentStep >= i |
| MultiStepper.ExactlyOneActive | src/components/ui/mutlistepper.tsx:123-129 | with the current step in range, exactly one circle is active, the current one |
| MultiStepper.IndicatorShape | src/components/ui/mutlistepper.tsx:112-129 | the circles read completed up to the current step, then active, then pending; the connectors read highlighted, then plain |
| FormRules.ZipRule | src/components/CreateLocation.tsx:42-45 | the five-character, digits-only ZIP rule (characterised by `ZipRuleExactly`) |
| FormRules.KnownStateRule | src/components/CreateLocation.tsx:36-41 | two characters and a member of the state list (characterised by `KnownStateRuleExactly`) |
| FormRules.YearRule | src/components/CreateLocation.tsx:22-27 | the year lies between 1900 and the current year, both included |
| FormRules.PhoneRule | src/pages/account-setup/CreateCompany.tsx:35-38 | not empty and matched by the phone pattern (characterised by `PhoneRuleExactly` and `PhoneDigits`) |
| FormRules.ZipRuleExactly | src/components/CreateLocation.tsx:42-45 | the ZIP rule accepts exactly the five-character strings of ASCII digits |
| FormRules.KnownStateRuleExactly | src/components/CreateLocation.tsx:36-41 | the state rule accepts exactly two-character codes from the state list |
| FormRules.ParsedZip | src/pages/account-setup/CreateCompany.tsx:54 | `parseInt` of an accepted ZIP is the number whose decimal text is the ZIP without its leading zeros |
| FormRules.StoredZipDropsLeadingZeros | src/pages/account-setup/CreateCompany.tsx:50-54 | the ZIP parsed with `parseInt` and printed back is the typed ZIP without its leading zeros, and unchanged when it does not start with 0 |
| FormRules.StoredZipExample | src/pages/account-setup/CreateCompany.tsx:50-54 | "02134" is accepted and stored as "2134" |
| FormRules.PhoneDigits | src/pages/account-setup/CreateCompany.tsx:21-22 | an accepted phone number holds ten digits, or eleven starting with the country code 1, and is at least ten characters long |
| FormRules.PhoneAcceptsGroups | src/pages/account-setup/CreateCompany.tsx:21-22 | every number made of an optional 1 or +1, an optional separator, three digits with an optional "(" before and an optional ")" after, an optional separator, three digits, an optional separator and four digits is accepted |
| FormRules.PhoneRuleHasGroups | src/pages/account-setup/CreateCompany.tsx:21-22 | conversely, every accepted number is made of exactly those parts: an optional 1 or +1, optional separators, optional parentheses, and groups of 3, 3 and 4 digits |
| FormRules.PhoneRuleExactly | src/pages/account-setup/CreateCompany.tsx:21-22 | the phone rule holds if and only if the number is made of those parts |
| FormRules.PhoneAcceptsHyphenated | src/pages/account-setup/CreateCompany.tsx:21-22 | "555-123-4567" is accepted |
| FormRules.PhoneAcceptsParentheses | src/pages/account-setup/CreateCompany.tsx:21-22 | "(555) 123-4567" is accepted |
| FormRules.PhoneAcceptsOpeningParenthesisOnly | src/pages/account-setup/CreateCompany.tsx:21-22 | "(555 123-4567" is accepted: each parenthesis is optional on its own |
| FormRules.PhoneAcceptsPlusOne | src/pages/account-setup/CreateCompany.tsx:21-22 | "+1-5551234567" is accepted |
| FormRules.PhoneAcceptsPlainDigits | src/pages/account-setup/CreateCompany.tsx:21-22 | "15551234567" is accepted |
| FormRules.PhoneRejectsLocalNumber | src/pages/account-setup/CreateCompany.tsx:21-22 | the seven-digit "555-1234" is rejected |
| AddressMapping.BuildingNumber | src/components/CreateLocation.tsx:136-139 | the building number is trimmed, and it is "" when the address has no space |
| AddressMapping.StreetPart | src/components/CreateLocation.tsx:140-142 | with no space in the address, the street part is the whole trimmed address |
| AddressMapping.WithSecondLine | src/components/CreateLocation.tsx:143-146 | ", " and the trimmed second line are appended exactly when the trimmed second line is not empty |
| AddressMapping.Street | src/components/CreateLocation.tsx:140-146 | with no space in the address the street is the trimmed address plus the second line; with a blank second line it is the street part alone |
| AddressMapping.UntrimmedBuildingNumber | src/pages/account-setup/CompanyCreationPage.tsx:151-153 | the building number is trimmed; it is "" when the address has no space, and otherwise the trimmed text before the first space of the address as typed |
| AddressMapping.UntrimmedStreet | src/pages/account-setup/CompanyCreationPage.tsx:154-159 | the street is trimmed; it is the whole trimmed address when there is no space, and otherwise the trimmed text after the first space of the address as typed |
| AddressMapping.SplitTrimmedAddress | src/components/CreateLocation.tsx:136-142 | on a trimmed address, the building number is the trimmed text before the first space and the street part is everything after it |
| AddressMapping.SplitWordAndRest | src/components/CreateLocation.tsx:136-142 | `b + " " + s` splits back into b and s when b has no space and both are trimmed |
| AddressMapping.LeadingSpaceShiftsTheSplit | src/components/CreateLocation.tsx:136-142 | the space is found in the untrimmed address but the cut is made in the trimmed one, so " 12 Main" gives building "" and street "2 Main" |
| AddressMapping.CorrectedBuildingNumber | src/components/CreateLocation.tsx:136-139 | the corrected building number, with the space looked for in the trimmed address, is the as-written building number of the trimmed address |
| AddressMapping.CorrectedStreetPart | src/components/CreateLocation.tsx:140-142 | the corrected street part is the as-written street part of the trimmed address |
| AddressMapping.CorrectedSplitIgnoresSurroundingSpace | src/components/CreateLocation.tsx:136-142 | after the correction, any address that trims to `b + " " + s` gives back b and s, whatever white space surrounds it |
| AddressMapping.CorrectedSplitOfLeadingSpace | src/components/CreateLocation.tsx:136-142 | after the correction, " 12 Main" gives building "12" and street "Main" |
| AddressMapping.LeadingSpaceKeptByUntrimmedSplit | src/pages/account-setup/CompanyCreationPage.tsx:151-159 | the creation page cuts the address as typed, so " 12 Main" gives building "" and street "12 Main" |
| AddressMapping.SplitVariantsAgree | src/pages/account-setup/CompanyCreationPage.tsx:151-159 | on a trimmed address both splits give the same building number, and the same street once it is trimmed |
| AddressMapping.FirstStreetSegment | src/components/CreateLocation/CreateLocationForm.tsx:22-24 | the trimmed text before the first comma, or the whole street when that is blank, or "" with no street |
| AddressMapping.SecondaryAddress | src/components/CreateLocation/CreateLocationForm.tsx:25-26 | the trimmed text after the first comma; "" when the street has no comma or is null |
| AddressMapping.PrimaryAddress | src/components/CreateLocation.tsx:76-82 | the building number (or "" when it is null or empty), one space, then the first street segment |
| AddressMapping.RebuildsSplitAddress | src/components/CreateLocation.tsx:74-89 | a stored building number and street split from `b + " " + s` and a second line rebuild into `b + " " + s` and the trimmed second line |
| AddressMapping.StreetSegments | src/components/CreateLocation.tsx:77-85 | a comma-free street joined with a second line comes apart into the street and the trimmed second line |
| CompanyModel.DefaultCompany | src/types/defaults.ts:3-15 | the placeholder company: id -1 and every other column null |
| CompanyModel.CompanyOf | src/components/CreateLocation.tsx:58 | the user's company when the user and its company are loaded, and the placeholder company otherwise |
| CreateLocation.FieldRules | src/components/CreateLocation.tsx:20-48 | the length, year, state and ZIP rules of the location schema on every field |
| CreateLocation.FieldRulesBoundYear | src/components/CreateLocation.tsx:22-27 | accepted start years lie between 1900 and the current year, and every year in that range is accepted |
| CreateLocation.FindSegment | src/components/CreateLocation.tsx:120 | none exactly when no segment has the id; otherwise the first segment that has it |
| CreateLocation.HasCategory | src/components/CreateLocation.tsx:121 | some non-null category of the list has the chosen id; a null entry matches nothing |
| CreateLocation.HasCategoryAppend | src/components/CreateLocation.tsx:121 | `some` over two lists joined holds exactly when it holds over one of them |
| CreateLocation.SegmentRule | src/components/CreateLocation.tsx:112-115 | false while the segments are not loaded; otherwise true exactly when a segment has the id |
| CreateLocation.CategoryRule | src/components/CreateLocation.tsx:117-123 | the segment `find` locates has a non-null category with the id |
| CreateLocation.ValidLocationForm | src/components/CreateLocation.tsx:109-124 | the field rules, the segment rule and the category rule together |
| CreateLocation.SegmentRuleFinds | src/components/CreateLocation.tsx:112-115 | the segment is valid exactly when a loaded segment has its id |
| CreateLocation.CategoryImpliesSegment | src/components/CreateLocation.tsx:109-124 | a valid category implies a valid segment |
| CreateLocation.NotLoadedRejects | src/components/CreateLocation.tsx:109-124 | until the segments are loaded, neither the segment rule nor the category rule holds, so no form is valid |
| CreateLocation.DuplicateSegmentUsesFirst | src/components/CreateLocation.tsx:117-123 | when two segments share an id, only the first one's categories are searched |
| CreateLocation.DefaultValues | src/components/CreateLocation.tsx:74-89 | the name always comes from the company or is ""; without `useCompanyDefaults` every other field is "" |
| CreateLocation.DefaultsWithoutCompany | src/components/CreateLocation.tsx:74-89 | with no company, the defaults are all "" except the address, which is a lone space |
| CreateLocation.LocationIndex | src/components/CreateLocation.tsx:135 | a decimal string whose value is the number of existing locations, or "1" when the list is absent |
| CreateLocation.MissingCompanyId | src/components/CreateLocation.tsx:129-131 | no user, no company id, or the falsy company id 0 |
| CreateLocation.MapValues | src/components/CreateLocation.tsx:126-154 | fails with "No user or user company id" exactly when there is no user or its company id is missing or 0; otherwise copies the fields and splits the address |
| CreateLocation.MapValuesWithoutSpace | src/components/CreateLocation.tsx:136-146 | with no space in the address, the building number is "" and the street is the whole trimmed address plus the second line |
| CreateLocation.LocationDefaultsRoundTrip | src/components/CreateLocation.tsx:74-89 | the defaults rebuilt from the stored building number and street give back the typed address and the trimmed second line |
| CreateLocation.IndexOfEmptyLocationList | src/components/CreateLocation.tsx:135 | a company with an empty location list gets index "0" |
| CreateLocationForm.FormDefaults | src/components/CreateLocation/CreateLocationForm.tsx:20-78 | the state default is the company's state when that is not empty, and "CO" otherwise |
| CreateLocationForm.NoCompanyFormDefaults | src/components/CreateLocation/CreateLocationForm.tsx:20-78 | with no company the address is " ", the state "CO" and every other field "" |
| CreateLocationForm.FormDefaultsAgreeWithLocationDefaults | src/components/CreateLocation/CreateLocationForm.tsx:20-78 | the embedded form and the stand-alone form agree on every default except the state fallback |
| CreateCompany.ValidCompanyForm | src/pages/account-setup/CreateCompany.tsx:24-55 | every field rule of the company schema except `nameRegex` |
| CreateCompany.ParseCompanyForm | src/pages/account-setup/CreateCompany.tsx:24-55 | parses exactly the forms that pass every field rule, keeps the text fields, and turns the ZIP into a number that prints as the ZIP without leading zeros |
| CreateCompany.MapValues | src/pages/account-setup/CreateCompany.tsx:139-154 | the text fields pass through; the address is split as in the location form; the ZIP becomes a decimal string of the same value; `repEmail` is the primary e-mail or "" |
| CreateCompany.StoredZipOfAcceptedForm | src/pages/account-setup/CreateCompany.tsx:152 | the stored ZIP of an accepted form is the typed ZIP without its leading zeros |
| CreateCompany.CompanyDefaultsRoundTrip | src/pages/account-setup/CreateCompany.tsx:139-154 | a company created from `b + " " + s` pre-fills the location form with the same name, address, city and state, the trimmed second line and the zero-stripped ZIP |
| CompanyCreationPage.ValidCompanyForm | src/pages/account-setup/CompanyCreationPage.tsx:32-67 | every field rule of this page's schema except `nameRegex` |
| CompanyCreationPage.ParseCompanyForm | src/pages/account-setup/CompanyCreationPage.tsx:32-67 | parses exactly the forms that pass every field rule, keeps the text fields, and turns the ZIP into a number that prints as the ZIP without leading zeros |
| CompanyCreationPage.MapValues | src/pages/account-setup/CompanyCreationPage.tsx:149-167 | renames the fields, cuts the typed address and trims both pieces, prints the ZIP back, and sets `repEmail` to the primary e-mail or "" |
| CompanyCreationPage.SplitsLikeCompanyForm | src/pages/account-setup/CompanyCreationPage.tsx:151-159 | on a trimmed address, this page splits as the company form does without a second line |
| CompanyCreationPage.SplitWordAndRestAsTyped | src/pages/account-setup/CompanyCreationPage.tsx:151-159 | `b + " " + s` is cut back into b and s by both kinds of split |
| CompanyCreationPage.CreationPageDefaultsRoundTrip | src/pages/account-setup/CompanyCreationPage.tsx:149-167 | a company created here from `b + " " + s` pre-fills the location form with the same name, address, city and state, an empty second line and the zero-stripped ZIP |
| CompanyUtils.StreetAddress | src/utils/company-utils.ts:4-6 | the building number (or "") and the street (or ""), with a space between them |
| CompanyUtils.FullAddress | src/utils/company-utils.ts:8-23 | the fixed message when the address is incomplete; otherwise a text that starts with the street address followed by ", " |
| CompanyUtils.FullAddressMessageExactly | src/utils/company-utils.ts:8-23 | the fixed message comes back exactly when the company or one of its five address columns is missing |
| CompanyUtils.FullAddressParts | src/utils/company-utils.ts:20-22 | a complete address is exactly the street address, ", ", the city, ", ", the state, one space and the ZIP |
| CompanyUtils.FormatPhoneDigits | src/utils/company-utils.ts:31-38 | the text is four characters longer than the last min(n, 10) digits; it starts with "(" and has "-" just before the last group of at most four digits |
| CompanyUtils.PhoneFormatted | src/utils/company-utils.ts:25-39 | the message when there is no company or no phone; otherwise a text of 4 to 14 characters that starts with "(" |
| CompanyUtils.PhoneFormattedAllDigits | src/utils/company-utils.ts:25-39 | the corrected formatter: the message when there is no company or no phone; otherwise a text of 4 to 14 characters that starts with "(" |
| CompanyUtils.PhoneMessageExactly | src/utils/company-utils.ts:25-28 | the phone message comes back exactly when there is no company or no phone |
| CompanyUtils.NoDigitsFormatsEmpty | src/utils/company-utils.ts:30-38 | a phone without digits formats as "() -" |
| CompanyUtils.FormatPhoneDigitsShape | src/utils/company-utils.ts:31-38 | the groups are at most 3, 3 and 4 characters, and together are the last min(n, 10) characters of the digits |
| CompanyUtils.FormatShortRun | src/utils/company-utils.ts:31-38 | a run of at most four digits d formats as "() -" followed by d |
| CompanyUtils.FormatTenDigits | src/utils/company-utils.ts:31-38 | ten digits a + b + c, cut 3-3-4, format as "(a) b-c" |
| CompanyUtils.FirstRunOnlyTruncatesPhone | src/utils/company-utils.ts:30 | the accepted "555-123-4567" formats as "() -555", because only its first digit run is used |
| CompanyUtils.AcceptedPhoneFormatsTenDigits | src/utils/company-utils.ts:25-39 | with every digit used, an accepted number shows its ten digits without the country code, cut 3-3-4 |
| CompanyUtils.AllDigitsFormatsHyphenatedPhone | src/utils/company-utils.ts:25-39 | with every digit used, "555-123-4567" formats as "(555) 123-4567" |
| Middleware.RedirectTo | src/middleware.ts:8-14 | next exactly when the target URL starts with the request URL; otherwise a redirect to the target itself |
| Middleware.IsUserSignedIn | src/middleware.ts:16-18 | the user id is present and not empty |
| Middleware.ShouldUserSignIn | src/middleware.ts:20-22 | the user is not signed in and the route is not public |
| Middleware.SignInUrl | src/middleware.ts:25 | the sign-in URL starts with the request's origin, and the rest of it is "/sign-in" |
| Middleware.RedirectUnauthorizedUser | src/middleware.ts:24-27 | next exactly when the sign-in URL starts with the request URL; otherwise a redirect to origin + "/sign-in" |
| Middleware.IsApiRequest | src/middleware.ts:39 | the URL contains "trpc" or "api" anywhere |
| Middleware.AfterAuth | src/middleware.ts:38-48 | the answer is next or a redirect to origin + "/sign-in"; an API request, a signed-in user or a public route always gets next |
| Middleware.RedirectsExactly | src/middleware.ts:38-48 | a request is redirected exactly when it is not an API call, sign-in is required, and the sign-in URL does not start with the request URL; the redirect always goes to origin + "/sign-in" |
| Middleware.ApiRequestsPass | src/middleware.ts:39-41 | a URL containing "trpc" or "api" passes, whatever the authentication state |
| Middleware.SignedInOrPublicPasses | src/middleware.ts:16-22 | a signed-in user, or any visitor of a public route, passes |
| Middleware.EmptyUserIdIsSignedOut | src/middleware.ts:16-18 | an empty user id is not signed in, so a protected request is redirected |
| Middleware.SignInPageNotRedirected | src/middleware.ts:8-14 | the sign-in page itself is not redirected, so there is no redirect loop |
| Middleware.RootNeverRedirected | src/middleware.ts:8-14 | the site root is a prefix of the sign-in URL, so a signed-out visitor of the root is not redirected |
| Middleware.ApiInsideWordPasses | src/middleware.ts:39-41 | "api" inside a path word such as "/therapist" also lets the request pass |
| Middleware.TrpcMiddleware | src/middleware.ts:29-35 | every request passes |
| UserStore.Override | src/store/user.ts:7-8 | one field of `{ ...state.user, ...patch }`: a key present in the patch wins, even when its value is undefined; an absent key keeps the old value |
| UserStore.Merge | src/store/user.ts:4-11 | every key present in the partial takes the partial's value, and every absent key keeps its old value |
| UserStore.MergeEmpty | src/store/user.ts:4-11 | merging the empty partial changes nothing |
| UserStore.MergeIdempotent | src/store/user.ts:4-11 | merging the same partial twice is merging it once |
| UserStore.MergeCompose | src/store/user.ts:4-11 | two merges in a row are one merge with the combined partial, where the later keys win |
| UserStore.MergeFullPatch | src/store/user.ts:4-11 | a partial that names every key replaces the whole slice |
| UserStore.Store.constructor | src/store/user.ts:13-18 | id, clerkId and companyId all start undefined |
| UserStore.Store.SetState | src/store/user.ts:19 | the new slice is the old slice merged with the partial |
| UserStore.SignInScenario | src/store/user.ts:13-19 | two updates give id 7 and clerk id "user_1"; putting the same company id twice leaves it at 3 |
| JsString.Trim | src/components/CreateLocation.tsx:136-139 | the result has no white space at either end and is no longer than the input; it is empty exactly when the input is all white space |
| JsString.TrimIsInfix | src/components/CreateLocation.tsx:136-139 | the result is a contiguous piece `s[i..j]` of the input with only white space before i and from j on, so only surrounding white space is removed |
| JsString.IndexOf | src/components/CreateLocation.tsx:138 | the first index holding the character, with none before it; -1 exactly when the character is absent |
| JsString.Substring | src/components/CreateLocation.tsx:136-142 | bounds in range give the slice between them, in either order; a negative start reads from 0, an end past the string reads to its end, and two bounds both at or below 0, or both at or past the length, give ""; the result is never longer than the string |
| JsString.SubstringClamps | src/utils/company-utils.ts:33-37 | `substring` gives the same text as with both bounds first clamped into `[0, length]` |
| JsString.ClampIndex | src/utils/company-utils.ts:33-37 | a negative index becomes 0, one past the length becomes the length, and one in range is kept |
| JsString.StartsWith | src/middleware.ts:9 | the prefix is no longer than the string and equals its first characters |
| JsString.StartsWithExactly | src/middleware.ts:9 | `p + t` starts with p, and a string that starts with p is p followed by the rest of it |
| JsString.StartsWithTransitive | src/middleware.ts:9 | a string that starts with p, where p starts with q, starts with q |
| JsString.Includes | src/middleware.ts:39 | true exactly when the part occurs at some index of the string |
| JsString.Or | src/components/CreateLocation.tsx:75-88 | `s \|\| fallback` is s when s is present and non-empty, and the fallback otherwise |
| JsString.Split | src/components/CreateLocation/CreateLocationForm.tsx:22-26 | never empty; a string without the separator gives itself alone, and one with it gives at least two pieces |
| JsString.Join | src/components/CreateLocation/CreateLocationForm.tsx:25-26 | no pieces join to ""; otherwise the result starts with the first piece (`JoinSplit` states the round trip with `Split`) |
| JsString.FirstDigitRun | src/utils/company-utils.ts:30 | only digits, and empty exactly when the text holds no digit |
| JsString.Digits | src/utils/company-utils.ts:30 | only digits, never more than the text holds |
| JsString.DecimalValue | src/pages/account-setup/CreateCompany.tsx:54 | the value is 0 exactly when every digit is 0 |
| JsString.NatToString | src/components/CreateLocation.tsx:135 | at least one digit, only digits, and no leading zero except for the number 0 itself |

## Left out

- Characters are Unicode scalar values, not UTF-16 code units. `length`, `substring` and `indexOf` agree with JavaScript only for text without characters outside the Basic Multilingual Plane.
- React scheduling is not modelled. This covers the timing of `useEffect`, the form `reset` and `resetField` effects, and the stale closure of repeated `nextStep` calls in one event. Each navigation call acts on the step as it currently is.
- Rendering is not modelled: JSX, CSS classes, titles and `Fragment` keys. The indicator is reduced to the status of each circle and connector.
- The form library behaviour is not modelled: zod and react-hook-form coercion, resolver wiring and error messages. The rules are predicates over values that have already been coerced. The year, segment and category are taken as integers, so `NaN` and non-integer numbers from `z.coerce.number()` are not modelled.
- `MultiStepper.StepsArg` takes whole-number step counts. A fractional `numOfSteps`, and non-integer or `NaN` `order` props in the sort comparator, are not modelled.
- `CreateCompany.ValidCompanyForm` is weaker than the source, because `nameRegex` is not modelled. With the `g` and `m` flags, its result depends on the `lastIndex` left by the previous call on the same regex object.
- `CompanyCreationPage.ValidCompanyForm` is weaker than the source for the same reason: `nameRegex` is not checked on the representative's names.
- The `Date` built from the start year is not modelled. `NewLocation.startYear` keeps the year as an integer, and the current year is a parameter.
- The state list is not part of this model. Its contents are a parameter of the state rule.
- `Middleware.SignInUrl` does not model WHATWG URL resolution: `new URL("/sign-in", req.url)` is taken as the request's origin followed by "/sign-in". The `config.matcher` patterns, which decide which requests reach the guard at all, are also not modelled.
- Clerk's `authMiddleware` is not modelled; the authentication state is an input. Also left out, as I/O and foreign calls:
  - the tRPC routers, the Prisma queries and the Clerk webhook;
  - the asynchronous `onSubmit` chains, with their mutations, toasts and page changes;
  - `console.log` in the location form's submit handler.
- `CreateCompany.MapValues` returns only the columns of a company. The object spread in the source also copies the form-only keys `address` and `addressSecondary` into the record; these extra keys are not modelled.
- `CompanyCreationPage.MapValues` takes the primary e-mail address as an optional string. It stands for `primaryEmailAddress?.toString()`, whose formatting belongs to Clerk.
- `UserStore.UserPatch` has no `setState` key. The partial type of the source also allows an entry for the `setState` function itself; only the three data fields are modelled.
- `CompanyModel.User` keeps, of the user record, only the company id, the company and the ids of its locations.

## Findings

| source | as written | input that shows it | evidently intended | confidence | as-written member | corrected member |
|---|---|---|---|---|---|---|
| src/components/CreateLocation.tsx:136-142 | the space is looked for with `values.address.indexOf(" ")` in the address as typed, but the cut is made in `values.address.trim()`; the company form does the same at src/pages/account-setup/CreateCompany.tsx:141-147 | " 12 Main" is stored as building number "" and street "2 Main" | the space looked for in the trimmed address, so that " 12 Main" is stored as "12" and "Main" | not executed | AddressMapping.LeadingSpaceShiftsTheSplit | AddressMapping.CorrectedSplitIgnoresSurroundingSpace |
| src/utils/company-utils.ts:30 | `repPhone.match(/\d+/)` is not a global match, so only the first run of digits reaches the formatter | "555-123-4567", which the phone rule accepts, formats as "() -555" | every digit of the number, as with `/\d+/g`, so the number formats as "(555) 123-4567" | not executed | CompanyUtils.FirstRunOnlyTruncatesPhone | CompanyUtils.AcceptedPhoneFormatsTenDigits |

`AddressMapping.BuildingNumber` and `AddressMapping.StreetPart` model the split as written, and the location form and the company form use them. `AddressMapping.CorrectedBuildingNumber` and `AddressMapping.CorrectedStreetPart` are the corrected split. They are the as-written split applied to the trimmed address, so white space around the address no longer moves the cut.

`CompanyUtils.PhoneFormatted` models the formatter as written. `CompanyUtils.PhoneFormattedAllDigits` is the corrected formatter. For every number the phone rule accepts, it shows the ten digits that follow the optional country code.
