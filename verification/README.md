# Image quality scoring, in Dafny

A model of the core of an e-commerce image quality checker (a Streamlit
app). The heart of it is `ImageQualityAnalyzer`: three heuristic
evaluators score an image's resolution, focus (blur) and exposure
(brightness) from 0 to 100, and a weighted sum truncated to an integer
combines them into one overall score. Around it, the model covers the
small business rules that consume that score:
- the user table's daily-usage bookkeeping;
- email/password accounts and the choice of Google redirect URI;
- the free/Pro tier limits on uploads.

Modules, one per source file:

- `Analysis` (`analysis.dfy`) models `analysis.py`. The calibration
  constants are `BlurThreshold`, `BrightnessMin`, `BrightnessMax`,
  `MinResolution` and `RecommendedResolution`. The module also holds the
  three evaluators and `Analyze`. The blur statistic `V` (variance of the
  Laplacian) and the brightness statistic `B` (mean HSV value channel) are
  exact `real` inputs. Python's `int()` is `Trunc`, truncation toward zero.
  `B` can also be computed from a pixel buffer (`MeanValue`). OpenCV defines
  the 8-bit HSV value channel as the largest of R, G and B.
- `UserStore` (`user_store.dfy`) models `db_manager.py`. The SQLite
  `users` table is a map from email (the UNIQUE column) to its row, plus
  the next AUTOINCREMENT id. The current date is a `today` parameter.
- `Auth` (`auth.dfy`) models `auth_manager.py`. The secrets section, the
  `CODESPACES` flag and the OAuth library's URL are parameters. werkzeug's
  `check_password_hash` is an uninterpreted function parameter.
- `App` (`app.dfy`) models `app.py`: the score colour, the Pro flag, and
  the upload handler. Each uploaded file is represented by its name and
  its measured statistics.
- `Text` (`text.dfy`) and `Wrappers` (`wrappers.dfy`) are helpers. They
  cover Python's substring `in`, `str(n)`, `split('@')[0]` and `None`.

Quirks of the code the model keeps:
- In `analysis.py` the blur status is `Good` only above 60 and `Error`
  otherwise. So a variance in [100, 110) scores 60, with status `Error`
  and no issue.
- In `analysis.py` the medium-resolution issue ends "is recommended for
  Zoom.".
- `check_resolution` in `analysis.py` accepts a zero width or height and
  scores it 0 like any other too-small image. In the program such an image
  never reaches it: `load_image` (`analysis.py`, lines 24-26, called from
  `app.py` line 393) hands the empty pixel array to `cv2.cvtColor`, which
  fails first. Decoding is left out, so the model scores the zero-size
  image.
- In `analysis.py` a brightness just above 200 is reported as too bright,
  yet can keep the full score of 100.

## Model

| member | source | states |
|---|---|---|
| Analysis.Trunc | analysis.py:47 | `int()` truncates toward zero: the result is within one of its argument, on the zero side |
| Analysis.CheckResolution | analysis.py:51-69 | score 0 iff a side is under 500; 70 iff both sides are at least 500 and one is under 1000; 100 iff both are at least 1000. Exactly one issue iff the score is below 100, with the exact message text. Status is Error/Warning/Good for 0/70/100. Width and height are echoed |
| Analysis.ResolutionMonotone | analysis.py:56-61 | a larger image (both sides at least as large) never scores lower |
| Analysis.ResolutionMessageNamesWidth | analysis.py:58 | the width printed in the "too low" message reads back as the image's width |
| Analysis.ResolutionMessageNamesHeight | analysis.py:58 | the height printed after the 'x' in the "too low" message reads back as the image's height |
| Text.NatToString | analysis.py:58-61 | `f"{n}"` of a dimension is a non-empty run of decimal digits, one digit exactly when n < 10, with no leading zero from 10 on; with `NatToStringRoundTrip` this fixes the text |
| Text.NatToStringRoundTrip | analysis.py:58 | formatting a dimension in a message loses nothing: parsing the digits gives it back |
| Analysis.CheckBlur | analysis.py:84-104 | below 100: score floor(V/100·50), at most 49, one "blurry" issue. From 100: score min(100, 50+floor(V/500·50)), at least 60, no issue. Score is 100 iff V ≥ 500. Status is Good iff score > 60, else Error. The score stays in [0,100] |
| Analysis.BlurMonotone | analysis.py:91-97 | the blur score is non-decreasing in the variance |
| Analysis.BlurErrorWithoutIssue | analysis.py:95-102 | a variance in [100,110) scores 60, status Error, with an empty issue list |
| Analysis.CheckBrightness | analysis.py:111-129 | on [80,200]: 100 and no issue. Below 80: floor(B), at most 79, "too dark". Above 200: 100−floor((B−200)/55·80), at least 20, "too bright". Status is never Error and is Good iff score > 80. At most one issue |
| Analysis.BrightnessRisesToMax | analysis.py:114-122 | up to 200, a brighter image never scores lower |
| Analysis.BrightnessFallsFromMin | analysis.py:117-122 | from 80 on, a brighter image never scores higher |
| Analysis.BrightnessOverexposedFullScore | analysis.py:117-122 | B = 200.5 gets the "too bright" issue yet scores 100 with status Good |
| Analysis.ValueChannel | analysis.py:107-109 | a pixel's HSV value is one of its components and at least each of them |
| Analysis.MeanValue | analysis.py:107-109 | the mean value channel of a non-empty 8-bit buffer lies in [0,255] |
| Analysis.UniformMeanValue | analysis.py:109 | a uniform image's mean value channel is its pixel's value channel |
| Analysis.CheckBrightnessOfPixels | analysis.py:106-129 | brightness scored from a buffer reports its mean value channel, with a score in [0,100] and a status that is never Error. The issue is "too dark" iff the mean is below 80, "too bright" iff it is above 200, and there is none iff it lies in [80,200] |
| Analysis.UniformBrightness | analysis.py:107-127 | a uniform buffer is scored by the brightness rule at its pixel's value channel |
| Analysis.BlackImageIsTooDark | analysis.py:114-116 | an all-black buffer scores 0, status Warning, with the "too dark" issue |
| Analysis.WhiteImageIsTooBright | analysis.py:117-122 | an all-white buffer scores 20, status Warning, with the "too bright" issue |
| Analysis.OverallScore | analysis.py:40-47 | for sub-scores in [0,100], the result is (3r+4b+3br) div 10 and lies in [0,100] |
| Analysis.OverallMonotone | analysis.py:46-47 | raising any sub-score never lowers the overall score |
| Analysis.OverallExamples | analysis.py:46-47 | (100,100,100) gives 100 and (0,50,70) gives 41 |
| Analysis.Analyze | analysis.py:29-49 | the three sub-results are the evaluators' unchanged, and the overall score is their 30/40/30 weighted sum truncated, in [0,100] |
| Analysis.PerfectImage | analysis.py:29-49 | an image of at least 1000×1000 with V ≥ 500 and B in [80,200] scores 100 overall |
| Text.Contains | auth_manager.py:27-33 | Python's substring `in`: a string never contains a longer one, and contains each of its suffixes (itself included) |
| Text.ContainsIff | auth_manager.py:27 | the scanning substring test agrees with "occurs at some index" |
| UserStore.GetUserByEmail | db_manager.py:118-125 | returns a row iff the email is stored, and then exactly that row |
| UserStore.GetUserByEmailMatches | db_manager.py:118-125 | in a well-formed table the row found for an email carries that email |
| UserStore.Sync | db_manager.py:39-89 | an unknown email gets a new row with the next id, 0 checks, today's date and the given name/picture. For a known email: a new day resets the checks to 0, the same day keeps them, and the date becomes today. Name and picture are filled only when the incoming value is non-empty and the stored one is empty. Id and hash are kept. No other row changes, and the returned record is the stored one |
| UserStore.SyncKeepsFilledProfile | db_manager.py:73-79 | a stored non-empty name or picture is never overwritten |
| UserStore.SyncIdempotent | db_manager.py:49-89 | two same-day syncs with the same arguments leave the same table and return the same record as one |
| UserStore.SyncPreservesValid | db_manager.py:52-61 | a sync keeps rows keyed by their email and ids distinct and below the next id |
| UserStore.CreateUser | db_manager.py:102-116 | fails, changing nothing, iff the email is already stored. Otherwise it inserts exactly one row: next id, the hash, the name (or the text before the first '@'), the picture (or the default avatar), 0 checks and today's date |
| Text.LocalPart | db_manager.py:110 | `split('@')[0]` is a prefix of the address with no '@', followed in it by '@' when shorter |
| Text.LocalPartSplits | db_manager.py:110 | an address containing '@' is its local part, then '@', then the remainder; the local part is strictly shorter |
| UserStore.DefaultNameIsLocalPart | db_manager.py:110 | an address with an '@' is its default name, then '@', then the rest |
| UserStore.CreateUserPreservesValid | db_manager.py:108-114 | an insert keeps the table well formed |
| UserStore.UpdateUserChecks | db_manager.py:91-100 | sets the counter of that email's row only, other fields and rows kept; a no-op for an absent email |
| UserStore.UpdateUserChecksLastWins | db_manager.py:95-97 | of two counter writes for one email, the last wins |
| UserStore.UpdateUserChecksPreservesValid | db_manager.py:95-97 | a counter write keeps the table well formed |
| Auth.ConfiguredUris | auth_manager.py:20 | the redirect list is present iff the section, its `web` table and `redirect_uris` all are |
| Auth.NewGoogleAuth | auth_manager.py:13-38 | the redirect URI is "http://localhost:8501" when the config or its list is missing or nothing matches. Otherwise it is the first URI in list order containing "github.dev" or "preview.app" (in Codespaces) or "localhost" (elsewhere). A non-default choice always matches the environment's test |
| Auth.LoginUrl | auth_manager.py:40-58 | with no (or an empty) client config: the redirect URI followed by "/?mock_login=true"; otherwise the OAuth URL, or "#" when building it fails |
| Auth.MockLoginUrlCarriesFlag | auth_manager.py:41-42 | the mock login URL starts with the redirect URI and contains "mock_login=true" |
| Auth.RegisterUser | auth_manager.py:128-137 | an existing email gives (false, "Email already exists.") and no change. Otherwise it succeeds with the create_user table and the given hash stored |
| Auth.LoginUser | auth_manager.py:139-155 | succeeds iff the email is stored and the hash check holds. It then returns the synced record's id, email, name and picture (the id is the stored one) and its daily checks. Otherwise "Invalid email or password." with the table unchanged |
| Auth.RegisterThenLogin | auth_manager.py:128-155 | a newly registered account logs in with the matching password and starts with 0 checks |
| App.ScoreColor | app.py:80-83 | green iff score ≥ 80, orange iff 50 ≤ score < 80, red iff score < 50 |
| App.ScoreColorMonotone | app.py:80-83 | a higher score never gets a worse colour |
| App.ScoreColorOfReports | app.py:412-417 | a perfect image's banner is green; an image under 500px on a side never gets green |
| App.CheckPremiumStatus | app.py:108-126 | premium iff the tier is Pro or `upgraded` is "true"; the resulting tier is Pro iff premium, and otherwise unchanged |
| App.PremiumIsSticky | app.py:114-124 | once premium, every later check is premium whatever the query |
| App.AdmittedFiles | app.py:362-371 | Pro users keep all files. A free batch is rejected iff daily checks plus the uploaded count (before truncation) exceed 5. An admitted free batch is cut to its first file |
| App.FreeBatchStaysWithinLimit | app.py:362-371 | an admitted free batch never takes the counter above 5 |
| App.ProcessUploads | app.py:357-406 | nothing uploaded, the limit message, or one result per admitted file in upload order, each the file's name with its analysis. A free user's counter rises by exactly 1, stays within 5 and is written to their row; a Pro user's counter and the table are untouched |

## Left out

- Image decoding (`load_image`: PIL decoding, RGBA→RGB alpha drop, RGB→BGR reordering) is not modelled. These are foreign library calls; the model starts from the measured statistics.
- The Laplacian filter and its variance are OpenCV-internal: convolution, border policy and grey-scale fixed-point rounding. `V` is an input, required non-negative as a variance is.
- The conversion to HSV is not modelled beyond the value channel; `B` is an input in [0,255] (or the mean of `ValueChannel` over a buffer).
- Analysis.CheckBlur: the reported `value` is the unrounded statistic; `round(x, 2)` only affects display.
- Analysis.CheckBlur: the score is computed on exact reals, not IEEE doubles. In binary floating point `(58.0 / 100) * 50` is 28.999999999999996, so `int()` gives 28 where the model gives 29 (`analysis.py` line 93). Likewise `(290.0 / 500) * 50` gives 78 in Python and 79 in the model (line 97).
- Analysis.Analyze: inherits the `CheckBlur` and `OverallScore` floating-point differences, so its blur sub-score and overall score can be one lower in Python at those boundary values.
- Analysis.CheckBrightness: the reported `value` is the unrounded statistic; `round(x, 2)` only affects display.
- Analysis.CheckBrightness: the score is computed on exact reals, not IEEE doubles. Below 80, `(B / 80) * 80` can round up in floating point, so Python can score one higher than the model: for B = 6.999999999999999 Python gives 7 and the model gives 6. A mean of 8-bit values over a realistic pixel count does not land that close below an integer.
- Analysis.OverallScore: computed on exact reals, not IEEE doubles. The two can differ at integer boundaries: in binary floating point 0·0.3 + 1·0.4 + 12·0.3 lies just below 4, so `int()` gives 3 where the exact value gives 4.
- `calibration_explanation` is prose and is not modelled.
- The enhancement module is not part of this model.
- The Streamlit UI is not modelled: page layout, CSS, session plumbing, `st.stop`/`st.rerun`, artificial `time.sleep` delays, the Stripe link, the CSV and ZIP report building.
- The Google OAuth flow itself is not modelled: token exchange, the userinfo HTTP request and `get_user_info`. Its only effect on the model is the URL that `get_login_url` returns.
- Environment variables, secrets loading and `datetime.now()` become parameters.
- The SQLite connection, `init_db`'s schema creation and migration, and the `created_at` column are not modelled.
- Password hashing is not modelled: `generate_password_hash` is replaced by the hash it produced, and `check_password_hash` is an uninterpreted function.
- Auth.LoginUser: the hash check is a total function and cannot fail. werkzeug's `check_password_hash` raises on a NULL stored hash (an account created by Google sign-in), so where the program crashes the model answers "Invalid email or password.".
- Auth.RegisterUser: the model is sequential, so its "An error occurred during registration." branch is unreachable. In the program it is reached when a concurrent registration inserts the same email between the lookup and the insert, and the UNIQUE constraint rejects the second insert (`auth_manager.py` lines 130-137, `db_manager.py` lines 115-116). Concurrency is not modelled.
