# SnapNShop decision rules, modelled in Dafny

SnapNShop is a small Django shop. Users register, keep a profile and add catalogue products to a personal collection. The browser pages validate forms, filter product cards and drive the add-to-collection button. This project models the parts of the shop that decide something, and proves what they promise:

- **The profile page's client-side validator** (`static/js/profile.js`), module `ProfilePage`:
  - the per-field rule table on the trimmed value;
  - the error styling and the single inline error message it leaves under each input;
  - whole-form validation, which validates every input without stopping early;
  - the gating of the update button, and the submit handler.
- **The account views** (`user/views.py`), module `Accounts`:
  - registration and profile-update validation, as an ordered list of error messages;
  - the user table they add to and update, kept free of duplicate usernames and emails (ignoring case).
- **The profile statistics** (`user/views.py`), module `ProfileStats`: the user's products, totals, per-category count and amount, the most-purchased category, and the zero-guarded average price.
- **The add-to-collection endpoint** (`product/views.py`), module `ProductStore`: a product table that never holds two products with the same title for one user.
- **The product grid page** (`static/js/card.js`), modules `Cookies` and `ProductCards`:
  - cookie lookup;
  - the search, the count badge and the "no products found" placeholder;
  - the Escape shortcut and card flipping;
  - the add button's loading, success and error states.
- **The catalogue page's filter** (`static/js/allProduct.js`), module `AllProducts`. It applies the same rule as the grid's search, held once in module `Catalogue`.
- **The registration page's controls** (`static/js/register.js`), module `RegisterPage`:
  - the two password show/hide toggles;
  - the confirmation check;
  - the role-card highlight.
- **Cross-file relations** between the client and server rules, module `ClientServer`:
  - every email the profile page accepts, the server accepts too;
  - the two username rules disagree on `"___"`. The page accepts it (three characters from `[A-Za-z0-9_-]`). The server refuses it, because once `_` and `-` are removed nothing is left, and an empty string is not alphanumeric.

Modelling choices:

- Page elements are records. A card has its title, its category, its `display` and two class lists. A button has its classes, its `disabled` flag and its caption. An input is a name and a value plus its classes and feedback nodes. A password field is its `type` plus its icon's classes.
- Each page is a class whose methods update these records in place.
- The ORM tables are sequences of rows held by a class.
- Prices are integer hundredths and ratings integer tenths, matching the decimal places of the columns. Sums are therefore exact, and the average price is an exact rational (`real`).
- Inputs from outside the code are parameters:
  - the result of `fetch`;
  - `decodeURIComponent`;
  - the login URL from `build_absolute_uri`;
  - the logged-in user.

Behaviour the proofs make explicit:

- After `showEmptyState(false)` the placeholder's `col-12` holder stays in the grid. Each later `showEmptyState(true)` inserts a new holder, so empty holders accumulate (`ProductCards.ProductGrid.ShowEmptyState`).
- The confirmation message is re-checked only when the confirmation input changes. Editing the password afterwards leaves a stale "accepted" state (`RegisterPage.StaleConfirmation`).

## Model

| member | source | states |
|---|---|---|
| Text.TrimSurround | static/js/profile.js:58 | `trim` removes whitespace from the two ends only, and leaves none at either end |
| Text.SplitPieces | static/js/card.js:75 | splitting on a separator: text without it is one piece, text with it gives at least two, and no piece contains it |
| Text.JoinSplit | static/js/card.js:75 | splitting loses nothing: joining the pieces with the separator gives back the text |
| Text.LastPieceAfter | user/views.py:101 | the last piece of a split is everything after the last separator |
| Text.RemoveMembers | user/views.py:97 | `replace(c, '')` keeps exactly the characters other than `c` |
| Text.Lower | static/js/card.js:190-197 | `toLowerCase()` keeps the length and lowers each character on its own (ASCII letters only) |
| Text.ContainsIffSlice | static/js/card.js:199-200 | `includes(t)` holds exactly when `t` is the slice of the text between some two positions |
| Text.IsAlnum | user/views.py:97 | `isalnum()` holds exactly for a non-empty text whose every character is an ASCII letter or digit |
| ProfilePage.ValidateValue | static/js/profile.js:57-98 | a field's verdict carries a message exactly when the value is invalid |
| ProfilePage.ValidateValueRules | static/js/profile.js:57-98 | a blank trimmed value gets "This field is required" for any field; `name` is valid iff at least 2 characters; `username` is valid iff at least 3 characters over `[A-Za-z0-9_-]`, and the length message takes precedence over the charset message; `email` is valid iff it matches the local@domain.tld shape; any other field is valid iff non-blank |
| ProfilePage.StyledClasses | static/js/profile.js:100-107 | after styling, the input has `is-valid` iff valid and `is-invalid` iff invalid, and its other classes are untouched |
| ProfilePage.RemoveErrorMessage | static/js/profile.js:122-127 | the first error node under the parent, if any, is removed and the rest keep their order |
| ProfilePage.ShowErrorMessage | static/js/profile.js:112-120 | the old error node is removed, then one holding the message is appended last |
| ProfilePage.Validated | static/js/profile.js:57-110 | validating an input keeps its name and value and restyles it by its verdict |
| ProfilePage.ValidatedFeedback | static/js/profile.js:101-127 | after validation an invalid input has exactly one error node holding its message and a valid one has none |
| ProfilePage.ValidatedIdempotent | static/js/profile.js:57-127 | validating an input a second time changes nothing |
| ProfilePage.AllValidAfterValidated | static/js/profile.js:57-110 | validating one input does not change whether the whole form is valid, since the verdict depends only on name and value |
| ProfilePage.ProfileForm.ValidateInput | static/js/profile.js:57-110 | returns the field's verdict and updates only that input, leaving at most one error node under it |
| ProfilePage.AllValidSnoc | static/js/profile.js:134-138 | the running result after one more input is the previous result and-ed with that input's verdict |
| ProfilePage.MapSeqAt | static/js/profile.js:134-138 | the whole-form pass leaves at each position the input found there, validated (`ValidatedAll` is `MapSeq(Validated, ·)`) |
| ProfilePage.MapSeqStep | static/js/profile.js:134-138 | with the inputs before position `n` validated and the rest untouched, validating input `n` extends the validated prefix by one |
| ProfilePage.ValidatedAllBounded | static/js/profile.js:101-138 | after the whole-form pass every parent still holds at most one error node |
| ProfilePage.ProfileForm.ValidateNext | static/js/profile.js:134-138 | one turn of the `forEach`: the next input is validated, those before it stay validated, those after it untouched, and the running result is extended by its verdict |
| ProfilePage.ProfileForm.ValidateEach | static/js/profile.js:131-139 | every input is validated in order, none skipped after a failure, and the result is true iff all of them passed |
| ProfilePage.ProfileForm.ValidateForm | static/js/profile.js:129-141 | returns true iff every required input is valid, validates every input (no short-circuit), and leaves each with at most one error node |
| ProfilePage.ProfileForm.UpdateFormState | static/js/profile.js:143-158 | the button is disabled iff the form is invalid; it carries `btn-primary` iff valid and `btn-secondary` iff invalid; its other classes and caption stay |
| ProfilePage.ProfileForm.OnInput | static/js/profile.js:28-33 | the `input` listener validates the input and then the form, gates the button by the form's validity (`btn-primary` iff valid, `btn-secondary` iff invalid), and leaves the button's other classes and caption as they were |
| ProfilePage.ProfileForm.OnBlur | static/js/profile.js:34-36 | the `blur` listener validates only that input |
| ProfilePage.ProfileForm.Submit | static/js/profile.js:40-53 | the form is submitted iff every input is valid; the button then gets `loading`, is disabled and shows the spinner icon with "Updating...", and otherwise stays as it was |
| Accounts.FormatErrorsEmptyIff | user/views.py:93-102 | the username-length, username-charset and email checks add nothing iff the username has at least 3 allowed characters and the email is well formed |
| Accounts.ValidateFormat | user/views.py:93-102 | each failing format check appends its own message, in check order |
| Accounts.EntryErrorsEmptyIff | user/views.py:73-83 | the first four registration checks add nothing iff all fields are given, the passwords match and have at least 8 characters, and the terms are accepted |
| Accounts.ValidateRegistration | user/views.py:71-102 | the registration messages are those of the nine checks that fail, one each, in check order |
| Accounts.RegistrationErrorsEmptyIff | user/views.py:71-104 | registration yields no message iff it is acceptable (complete, confirmed, long enough password, terms accepted, username and email not in use ignoring case, well-formed username and email); at most nine messages |
| Accounts.ValidateProfileEdit | user/views.py:167-189 | the profile-update messages are those of the six checks that fail, in check order; the uniqueness checks ignore the user's own row |
| Accounts.ProfileErrorsEmptyIff | user/views.py:167-191 | a profile edit yields no message iff it is complete, its username and email are unused by other users, and both are well formed |
| Accounts.UsernameCharsOkIff | user/views.py:97-98 | the server accepts a username's characters iff every character is a letter, a digit, `_` or `-`, and at least one is a letter or digit |
| Accounts.SeparatorOnlyUsernameRejected | user/views.py:97-98 | a username made only of `_` and `-`, such as `"___"`, fails the charset check |
| Accounts.EmailOkAfterLastAt | user/views.py:101-102 | for an email with an `@`, the server's check passes iff a `.` follows the last `@` |
| Accounts.AddKeepsDistinct | user/views.py:85-127 | adding a user whose username and email are not in use keeps usernames, emails and ids unique |
| Accounts.ReplaceKeepsDistinct | user/views.py:172-200 | rewriting a user's row with a username and email no other user has keeps them unique |
| Accounts.UserStore.Register | user/views.py:60-146 | a GET renders the blank form; a failing POST re-renders with every message and with name, username, email and role (default `customer`) preserved, and creates nobody; an acceptable POST appends exactly one user with the next id, advances the id counter by one, and redirects home with the welcome message; a GET or failing POST leaves the id counter as it was; uniqueness is kept |
| Accounts.UserStore.UpdateProfile | user/views.py:153-205 | an anonymous visitor is redirected to login; a failing edit changes nothing and shows the messages; an acceptable edit rewrites only the current user's name, username and email and redirects; uniqueness is kept |
| ProfileStats.UserProductsMembers | user/views.py:208 | the user's product list holds exactly the rows the user owns |
| ProfileStats.TotalQuantityNonNegative | user/views.py:215 | the total quantity is never negative |
| ProfileStats.SpentBetween | user/views.py:216 | with every price between two bounds, the spend lies between the bounds times the total quantity |
| ProfileStats.CategoriesFacts | user/views.py:219-230 | the category keys are distinct; a category is a key iff some product has it; there are no keys iff there are no products |
| ProfileStats.CategoryTotalsSum | user/views.py:215-230 | the per-category counts sum to the total quantity, and the per-category amounts sum to the total spend |
| ProfileStats.CategoryStats | user/views.py:219-230 | the loop's dictionary has one key per category, in first-appearance order, each holding that category's total quantity and total amount |
| ProfileStats.MaxFrom | user/views.py:233 | the running maximum is a key whose count is at least every other count; a tie with the starting key keeps the starting key |
| ProfileStats.MaxFromFirst | user/views.py:233 | the running maximum is the starting key or the first key of the rest that beats it and every key before it, since only a strictly larger count replaces it |
| ProfileStats.MostPurchased | user/views.py:233 | the most-purchased category is None iff there are no categories; otherwise it is a key whose count is at least every other count, and every key before it in insertion order has a strictly smaller count, so the first of tied keys wins |
| ProfileStats.AveragePrice | user/views.py:236 | the average is 0 when the total quantity is 0, and otherwise times the total quantity gives the total spend |
| ProfileStats.AverageBetween | user/views.py:215-236 | the average price lies between the lowest and the highest price bought |
| ProfileStats.ComputeStatistics | user/views.py:207-236 | every statistic equals its definition over the user's products: count, totals (the total quantity never negative), category dictionary, most-purchased category (None iff no products) and average |
| ProductStore.RateOf | product/views.py:52 | the stored rate is 0 when `rating` or its `rate` is missing, the sent rate when given, and there is none (the add fails) when either is `null` |
| ProductStore.CountOf | product/views.py:53 | the stored count is 0 when `rating` or its `count` is missing, the sent count when given, and there is none (the add fails) when either is `null` |
| ProductStore.MissingRatingDefaults | product/views.py:44-54 | a body without `rating`, or whose rating lacks both keys, is stored with rate and count 0 |
| ProductStore.Storable | product/views.py:44-54 | `create` succeeds exactly when every NOT NULL column gets a value, the price and rate fit their decimal columns, and the count is not negative (product/models.py:12-21); in particular a body whose `rating`, `rate` or `count` is `null` cannot be stored |
| ProductStore.NewProduct | product/views.py:44-54 | the created row is owned by the requesting user, carries the payload's title, and has quantity 1 |
| ProductStore.AppendKeepsWellFormed | product/views.py:33-54 | appending a product whose title its owner does not yet hold keeps ids unique and (owner, title) pairs unique |
| ProductStore.ProductTable.AddProduct | product/views.py:25-68 | an anonymous user is redirected; a non-POST gets "Invalid request method"; an unreadable body gets "Failed to add product"; a title the user already holds gets "Product already added to your collection"; a body that cannot be stored gets "Failed to add product"; otherwise exactly one row is appended, the id counter advances by one, and the reply is success with its id; the table stays well formed, and every failure leaves it and the id counter unchanged |
| ProductStore.SameTitleForTwoUsers | product/views.py:33-60 | two different users may each add a product with the same title |
| ProductStore.SameTitleTwiceForOneUser | product/views.py:33-42 | one user adding the same title twice is refused the second time, and the table keeps one row |
| Cookies.Prefix | static/js/card.js:78 | `substring(0, n)` is the first `n` characters, or the whole string when shorter |
| Cookies.PrefixComparison | static/js/card.js:78 | the loop's comparison holds iff the entry begins with exactly `name=` |
| Cookies.GetCookie | static/js/card.js:72-85 | null for an empty cookie string; a value iff some trimmed entry begins with `name=`; that value is the decoded rest of the first such entry |
| Cookies.LongerNameNotMatched | static/js/card.js:78 | an entry for a cookie whose name extends `name` (`csrftoken2` for `csrftoken`) is not matched |
| Cookies.LookupSkipsLongerName | static/js/card.js:72-85 | looking up `csrftoken` in `csrftoken2=a; csrftoken=b` gives the decoded `b` |
| Catalogue.CardMatches | static/js/card.js:190-200 | a shown card's lowered title contains the lowered term, and with no category chosen the title test alone decides; the same rule is allProduct.js:13-22 |
| Catalogue.CountShown | static/js/card.js:193-205 | the tally of shown cards never exceeds the number of cards (its extremes are pinned by the next two rows) |
| Catalogue.WithDisplay | static/js/allProduct.js:24-28 | a filtered card's `display` is exactly `block` or `none` (`block` iff shown), and nothing else on the card changes |
| Catalogue.CountShownZero | static/js/card.js:219 | the count of shown cards is 0 iff no card is shown |
| Catalogue.CountShownAll | static/js/card.js:252-256 | the count of shown cards is the number of cards iff every card is shown |
| Catalogue.MatchIgnoresCase | static/js/card.js:190-200 | the search rule ignores case: lowering the title, category, term or filter first changes nothing |
| Catalogue.EmptySearchMatches | static/js/allProduct.js:21-22 | an empty search term and an empty category match every card |
| Catalogue.LongerTermMatchesLess | static/js/allProduct.js:13-22 | extending the search term never shows a card the shorter term hid |
| Catalogue.Toggle | static/js/card.js:4-7 | `classList.toggle(c)` has `c` iff the old list lacked it, and leaves other classes alone |
| Catalogue.ToggleTwice | static/js/card.js:4-7 | toggling twice restores the class list |
| ProductCards.Searched | static/js/card.js:195-209 | after the search a card is shown iff its lowered title contains the lowered term and the category is empty or contained in its lowered category; `fade-in` is on it iff it is shown; nothing else on it changes |
| ProductCards.ProductGrid.SearchCards | static/js/card.js:193-210 | every card is shown or hidden by the search rule, and `visibleCount` equals the number of cards set to `block` |
| ProductCards.ProductGrid.ShowEmptyState | static/js/card.js:223-241 | afterwards there is one placeholder if asked for and none otherwise; a repeated call changes nothing; a holder is inserted only when a placeholder is created |
| ProductCards.ProductGrid.SearchProducts | static/js/card.js:189-220 | every card is searched as above; the badge, if present, shows the visible count; the placeholder is present iff no card is shown; a new holder is added exactly when a placeholder had to be inserted |
| ProductCards.ProductGrid.OnEscape | static/js/card.js:252-256 | Escape clears both inputs and searches again: each card is the old card searched with empty inputs (so visible and fading in, everything else kept); the badge, if present, shows all cards; the placeholder stays only when there are no cards, and a holder is added only if one had to be inserted |
| ProductCards.ProductGrid.FlipCard | static/js/card.js:4-7 | flipping toggles `flipped` on that card's face and changes no other card |
| ProductCards.FlipTwice | static/js/card.js:4-7 | flipping a card twice restores every card |
| ProductCards.ToastFor | static/js/card.js:41-68 | the toast is a success iff the reply's status is `success`; it shows the reply's message, or the network-error text when the request failed |
| ProductCards.AddButton.BeginAdd | static/js/card.js:25-27 | a click on an enabled button adds `loading` and disables it |
| ProductCards.AddButton.FinishAdd | static/js/card.js:41-68 | `loading` is removed; on success the button shows `success` and "Added!" and stays disabled; on an error reply or a failed request it is enabled again with its caption unchanged |
| ProductCards.AddButton.ResetAfterSuccess | static/js/card.js:51-55 | the success timer clears `success`, restores the "Add" caption and enables the button |
| ProductCards.AddButton.AddProduct | static/js/card.js:10-69 | the whole click: a disabled button while loading, then the outcome above; the button is never loading and successful at once |
| ProductCards.AddRound | static/js/card.js:25-68 | from an idle button, whatever the response, once the success reset has run the button is idle with its original classes |
| AllProducts.CatalogueView.FilterProducts | static/js/allProduct.js:12-30 | each card's `display` becomes `block` if it matches the inputs and `none` otherwise; nothing else changes |
| AllProducts.CatalogueView.OnSearchInput | static/js/allProduct.js:2-5 | typing in the search box re-filters with the new term |
| AllProducts.CatalogueView.OnCategoryChange | static/js/allProduct.js:8-10 | changing the category re-filters with the new category |
| AllProducts.EmptyFilterShowsAll | static/js/allProduct.js:21-22 | with both inputs empty every card is shown |
| AllProducts.FilterTwice | static/js/allProduct.js:12-30 | filtering again with the same inputs leaves the cards as the first run left them |
| AllProducts.SameVisibilityAsSearch | static/js/allProduct.js:17-28 | the catalogue filter and the grid's search show exactly the same cards for the same inputs |
| RegisterPage.Toggled | static/js/register.js:6-14 | a masked field becomes text with `bi-eye-slash`, any other becomes masked with `bi-eye`; the icon has `bi-eye-slash` iff text and `bi-eye` iff masked; other icon classes stay |
| RegisterPage.ToggledTwice | static/js/register.js:6-14 | two clicks on a toggle restore the field and its icon |
| RegisterPage.ConfirmValidity | static/js/register.js:37-41 | the message is empty iff the confirmation equals the password, and otherwise is "Passwords do not match" |
| RegisterPage.RegisterForm.TogglePassword | static/js/register.js:2-15 | the password toggle changes only the password field and its icon |
| RegisterPage.RegisterForm.ToggleConfirmPassword | static/js/register.js:17-30 | the confirmation toggle changes only the confirmation field and its icon |
| RegisterPage.RegisterForm.OnConfirmInput | static/js/register.js:33-42 | typing into the confirmation sets its validity message: empty iff it equals the password |
| RegisterPage.RegisterForm.SelectRole | static/js/register.js:45-52 | after a role change exactly the chosen card has `selected`, and no other class changes |
| RegisterPage.TogglesIndependent | static/js/register.js:2-30 | each toggle leaves the other field alone, and two clicks on one restore it |
| RegisterPage.StaleConfirmation | static/js/register.js:33-42 | an accepted confirmation stays accepted after the password is changed to a different value |
| ClientServer.ClientEmailPassesServer | static/js/profile.js:90-96 | every email the profile page accepts (on the trimmed value) passes the server's email check (on the submitted value) |
| ClientServer.ClientUsernamePassesServer | static/js/profile.js:80-87 | a username the page accepts passes the server's length and charset checks, provided it has no surrounding whitespace and contains a letter or digit |
| ClientServer.UsernameRulesDisagree | static/js/profile.js:80-87 | `"___"` passes the page's username rule but fails the server's charset check |

## Left out

- Floating point and currency conversion are left out: `convertToINR`, `convertPricesToINR`, `parseFloat` of the card data, and the template filters. Prices are integer hundredths throughout.
- ProfileStats.AveragePrice: is an exact rational. Python's `Decimal` division rounds to 28 significant digits, and that rounding is not modelled.
- ProductStore.Storable: approximates `Decimal` columns by range checks on integer hundredths and tenths. Rounding of extra decimal places is not modelled.
- Timers and the event loop are left out:
  - `debounce`;
  - the 500 ms delay before the profile form is submitted;
  - the staged fade-in;
  - the three-second success timer. Its effect is the explicit step `ResetAfterSuccess`.
- Presentation is left out:
  - hover effects;
  - the scroll-to-top button;
  - the `S` focus shortcut;
  - tooltips and responsive behaviour;
  - counters' animation;
  - the Bootstrap toast itself (the toast's text and kind are returned);
  - the badge's HTML (the model keeps the count it shows).
- The `addProduct` request is left out: building its JSON, the CSRF header and `fetch`. The decoded reply, or a failure, is an input.
- `decodeURIComponent` is a parameter. Its `URIError` on malformed escapes is not modelled.
- The `login` and `logout` views, `authenticate`, `auth_login`, sessions, `messages`, `render` and `redirect` are left out. Results are datatypes, and the flashed messages are the returned error list.
- Accounts.UserStore.Register: assumes `authenticate` succeeds right after the user is created. If it returned None, the view would fall through to rendering the blank form.
- `IntegrityError` handlers (user/views.py:142-144, 204-205) are left out. They guard against concurrent writes; the sequential model keeps usernames and emails unique itself.
- POST fields sent as `None` are left out. An absent name, username, email or password is modelled as the empty string. The view would crash on `len(None)`, which is outside the contract.
- Python's `str.isalnum` and `lower`, JavaScript's `toLowerCase`, and the database's `__iexact` are modelled on the ASCII alphabet. Unicode letters and digits and Unicode case folding are not modelled.
- The regular expressions are explicit character predicates, not a regex engine.
- The add-to-collection body is modelled only with the value types card.js sends (strings for the texts, numbers or `null` for price, rate and count). A body that is not a JSON object, or that holds a value of another type, is an unreadable body answered with "Failed to add product" before the title lookup. Two differences follow: the source looks the title up first, so a held title sent with a wrong-typed price or rating gets "Product already added to your collection"; and Django converts some wrong-typed values and stores them (a number as a title, a numeric string as a price or count), which the model refuses. A `null` for a key read without a default is the same as a missing key; a `null` `rating`, `rate` or `count` makes the add fail. Since `JSON.stringify` writes `NaN` as `null`, a card whose rate or count attribute is missing or not a number is refused with "Failed to add product".
- ProductStore.Storable: does not check the `max_length` limits of title (255), category (100) and image URL (500). Whether they are enforced depends on the database backend.
- ProfilePage.ValidateValue: counts a value's length in Unicode scalar values, while `value.length` counts UTF-16 code units. A character outside the Basic Multilingual Plane counts once here and twice in the page, so "😀" is too short a name here but long enough in the page.
- `order_by('-created_at')` is modelled by insertion order. Ties in `created_at` are not modelled.
- The `allProduct` view's request to the external store API is left out. `update_product_quantity`, named in product/urls.py, is not defined in product/views.py.
- DOM aliasing and node identity are left out: cards, inputs and buttons are values held in sequences. The guards that an element exists (`if (updateBtn)`, `if (profileForm && updateBtn)`) are taken as true, except the optional count badge.
