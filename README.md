# BhojanBuddy request logic in Dafny

BhojanBuddy is a food-logging app. It has two services. A REST backend stores user profiles, BMI records and food-log entries, and it lets each caller touch only their own records. A classification service names a food from a photo, returns nutrition facts, and keeps a log of user corrections. This project models the decision logic between the web frameworks and the storage. The databases, the classifier and the files are reduced to values and parameters.

- `common.dfy` has the shared types: `Option`, `Result`, the two ways a handler fails (`HttpError(status, detail)` and an uncaught exception), JSON values and uploaded files.
- `decimal.dfy` is Python's `str()` of an int. The two services each build a key with it: `label_map[str(i)]` and the `{user_id}_...` image name. `ParseInt` is its inverse.
- `user_model.dfy` holds the `ModeType` enum, the `users` row, the patch payload, and the public view.
- `user_router.dfy` covers `/users/me`, `/users/{id}` and the profile patch. `UserStore` is a class whose table is a `seq<User>`. The patch builds the new row field by field. It commits only when there is no email clash.
- `tables.dfy` holds what the BMI and food tables share: owned rows with a primary key and an insert-time `created_at`, and the history query (filter by owner, newest first).
- `bmi_schema.dfy` / `bmi_router.dfy` are the BMI payloads and the `BmiTable` class.
- `food_schema.dfy` / `food_router.dfy` are the food payloads and the `FoodTable` class. This includes the image path `uploads/food_images/{user_id}_{timestamp}_{filename}`.
- `prediction.dfy` models `/predict`. It selects the top three classes, maps them through the label map, applies the 0.7 threshold and looks up nutrition.
- `feedback.dfy` models `/feedback`. It checks the required fields, then makes one append to the log.

Three behaviours of the code are worth knowing:
- An email clash on the profile patch answers 400 "Email already registered" (`backend/app/api/auth/user_router.py:40-43`).
- Ties in the top-3 ranking follow no fixed order, because numpy's default `argsort` is not stable (`backend-ml/app.py:133`). The model promises no tie order.
- All three top indices go through the label map before the threshold check (`backend-ml/app.py:135-140`). So a missing key is an uncaught `KeyError`, even when the best class would be confident.

## Model

| member | source | states |
|---|---|---|
| `Decimal.ParseIntRoundTrip` | backend-ml/app.py:136 | `str(i)` loses nothing: parsing the decimal rendering of any int gives the int back |
| `Decimal.IntToStringInjective` | backend-ml/app.py:136 | distinct class indices give distinct label-map keys |
| `Decimal.IntToString` | backend/app/api/food_router.py:51 | the rendering is non-empty, uses only digits and `-`, and starts with a digit exactly for non-negative ints (so it never contains `_`) |
| `UserModel.ParseMode` | backend/app/schemas/user.py:25 | the mode literal accepts exactly "beast" and "swasthya", and what it accepts is the value of the enum member it returns |
| `UserModel.ModeValue` | backend/app/models/user.py:6-8 | each enum member's value is "beast" or "swasthya" |
| `UserModel.ModeRoundTrip` | backend/app/models/user.py:6-8 | each enum member's value passes the literal check and maps back to that member |
| `UserModel.ModeOrDefault` | backend/app/schemas/bmi.py:10 | a left-out mode is "swasthya" and a supplied one is kept |
| `UserModel.EmptyUserUpdate` | backend/app/schemas/user.py:17-25 | every patch field defaults to `None` |
| `UserModel.PublicView` | backend/app/schemas/user.py:27-36 | the response carries id, email, full name, created_at and updated_at of the stored row |
| `UserModel.PublicViewHidesSecrets` | backend/app/schemas/user.py:27-36 | the response does not depend on the password hash or on any profile field (age, gender, height, weight, preferred mode) |
| `UserRouter.IndexOfId` | backend/app/api/auth/user_router.py:21 | finds the first row with the id, and finds none exactly when no user has that id |
| `UserRouter.HasEmail` | backend/app/api/auth/user_router.py:38-39 | true exactly when some stored user holds the email |
| `UserRouter.EmailConflict` | backend/app/api/auth/user_router.py:35-39 | the patch clashes exactly when it supplies an email that differs from the caller's and that some stored user already holds |
| `UserRouter.Patch` | backend/app/api/auth/user_router.py:33-56 | each supplied field replaces the stored value, each `None` field keeps it, a new password is stored only as `hash(password)`, and id and timestamps stay |
| `UserRouter.Committed` | backend/app/models/user.py:23 | `updated_at` becomes the commit time exactly when the row changed; an unchanged row is written back as it was |
| `UserRouter.UserStore.GetUser` | backend/app/api/auth/user_router.py:15-24 | succeeds exactly when a user with the id exists, returning that user's public view whoever the caller is, and otherwise fails 404 "User not found" |
| `UserRouter.UserStore.ReadUsersMe` | backend/app/api/auth/user_router.py:11-13 | returns the public view of the caller's own stored row, the same answer `GetUser` gives for the caller's id |
| `UserRouter.UserStore.UpdateUser` | backend/app/api/auth/user_router.py:26-61 | an email clash fails 400 "Email already registered" with the table unchanged; otherwise only the caller's row changes, to the committed patch, and ids and emails stay unique |
| `UserRouter.UpdateKeepsUniqueness` | backend/app/api/auth/user_router.py:35-44 | after a successful patch no two users share an id or an email |
| `UserRouter.ConflictMeansAnotherUserHoldsEmail` | backend/app/api/auth/user_router.py:37-43 | the patch clashes exactly when a different user already holds the requested email |
| `UserRouter.OwnEmailNeverConflicts` | backend/app/api/auth/user_router.py:37 | re-submitting the caller's current email never clashes, whatever the table holds |
| `UserRouter.EmptyUpdateChangesNothing` | backend/app/api/auth/user_router.py:33-58 | an all-`None` patch commits the row unchanged, `updated_at` included |
| `UserRouter.PatchNeverClears` | backend/app/api/auth/user_router.py:47-56 | a patch can never set a stored nullable profile field back to null |
| `Tables.OwnedNewestFirst` | backend/app/api/bmi_router.py:56 | returns only rows of the table owned by the user, and every such row |
| `Tables.OwnedNewestFirstIsOrdered` | backend/app/api/bmi_router.py:56 | on a table stamped in insertion order, the history strictly decreases in `created_at` |
| `Tables.NewestFirstIsUnique` | backend/app/api/food_router.py:96 | two newest-first sequences with the same rows are equal |
| `Tables.HistoryIsDetermined` | backend/app/api/food_router.py:96 | any newest-first listing of exactly the owner's rows is the history the model returns |
| `Tables.Stamped` | backend/app/models/bmi.py:10-17 | a new row gets the next primary key, its owner and the current clock tick, and keeps the payload |
| `Tables.InsertKeepsConsistent` | backend/app/models/food.py:10-31 | inserting a stamped row keeps ids unique and stamps increasing |
| `Tables.InsertHeadsHistory` | backend/app/api/bmi_router.py:36-38 | after an insert, the new row comes first in its owner's history and every other user's history is unchanged |
| `BmiSchema.ParseBmiRecordCreate` | backend/app/schemas/bmi.py:5-13 | the create payload keeps the owner and the four measured fields as given, and its mode defaults to "swasthya" |
| `BmiSchema.BaseOf` | backend/app/api/bmi_router.py:27-34 | height, weight, bmi, category and mode are stored as supplied, with nothing recomputed |
| `BmiRouter.BmiTable.CreateBmiRecord` | backend/app/api/bmi_router.py:13-40 | a foreign `user_id` fails 403 with the table unchanged; otherwise exactly one row is appended with the payload's fields, and it heads the caller's history |
| `BmiRouter.BmiTable.GetBmiHistory` | backend/app/api/bmi_router.py:42-58 | a foreign `user_id` fails 403 and discloses nothing; otherwise it returns exactly the caller's rows, strictly newest first |
| `FoodSchema.NoNutrients` | backend/app/schemas/food.py:10-22 | every nutrition field that is not supplied is null, never zero |
| `FoodSchema.MinimalFoodEntryBase` | backend/app/schemas/food.py:5-22 | a payload with only a name has mode "swasthya" and no nutrition values |
| `FoodRouter.ImagePath` | backend/app/api/food_router.py:47-52 | the photo path lies under `uploads/food_images/` and ends with the client's file name |
| `FoodRouter.ImageOwnerRoundTrip` | backend/app/api/food_router.py:51 | the `{user_id}_` prefix of the saved name gives back the owner's id, so photos of different users never share a path |
| `FoodRouter.NewEntry` | backend/app/api/food_router.py:47-74 | name and all 11 nutrition fields are stored as supplied, mode defaults to "swasthya", and the image path is null exactly when there is no photo (otherwise it names the owner) |
| `FoodRouter.BareFormStoresDefaults` | backend/app/api/food_router.py:24-35 | a form with only owner and name stores mode "swasthya" and null nutrition, the same defaults as the JSON payload |
| `FoodRouter.FoodTable.CreateFoodEntry` | backend/app/api/food_router.py:20-80 | a foreign `user_id` fails 403 before a path is derived or a row stored; otherwise exactly one row is appended, owned by the caller, and it heads the caller's history |
| `FoodRouter.FoodTable.GetFoodHistory` | backend/app/api/food_router.py:82-98 | a foreign `user_id` fails 403; otherwise it returns exactly the caller's entries, strictly newest first |
| `Prediction.TopIndices` | backend-ml/app.py:133 | returns min(3, n) distinct class indices in non-increasing confidence order, none less confident than any class left out, with no tie order fixed |
| `Prediction.Options` | backend-ml/app.py:135-138 | succeeds exactly when every chosen index's `str(i)` key is in the label map; then option k is that label with `preds[i]`; otherwise it is an uncaught `KeyError` |
| `Prediction.NutritionOf` | backend-ml/app.py:147 | the catalog entry for the label, or an empty JSON object when the label is absent |
| `Prediction.Gate` | backend-ml/app.py:140-153 | no options is an `IndexError`; the answer is `uncertain` with all options exactly when the best confidence is below 0.7; otherwise it is `confident` with the best label, its confidence (which is at least 0.7) and its nutrition |
| `Prediction.Respond` | backend-ml/app.py:135-153 | a selected index missing from the label map is a `KeyError`; with all keys present, no selection is an `IndexError` and any selection succeeds; a successful answer is `confident` exactly when the best selected class reaches 0.7 (and `uncertain` exactly when it is below), and a `confident` answer carries that class's label, confidence and catalog nutrition |
| `Prediction.Predict` | backend-ml/app.py:124-153 | no image fails 400 "No image uploaded"; otherwise the ranking is a valid top-3 of the classifier's output and the answer is gated on it |
| `Prediction.TopIsMaximal` | backend-ml/app.py:133 | the first selected class has the maximal confidence among all classes |
| `Prediction.GateMatchesMaximum` | backend-ml/app.py:140-153 | `uncertain` means no class reaches 0.7; `confident` names a mapped class of maximal confidence that reaches it |
| `Prediction.OutcomeIgnoresTies` | backend-ml/app.py:133-153 | whatever tie order the sort picks, successful answers agree on status and confidence |
| `Prediction.OptionsAreLabelled` | backend-ml/app.py:133-144 | an `uncertain` answer lists min(3, n) options, each labelled `label_map[str(i)]` with its class's confidence, in non-increasing order |
| `Prediction.MissingLabelFails` | backend-ml/app.py:135-138 | any selected index missing from the label map makes the request fail, never fall back to a default |
| `Feedback.HasRequiredFields` | backend-ml/app.py:174-175 | true exactly when the body has all of `image_name`, `correct_label`, `predicted_label` and `confidence` |
| `Feedback.ParseFeedback` | backend-ml/app.py:173-183 | a body missing any of the four keys fails 400 "Missing required fields."; otherwise the record copies the four values verbatim |
| `Feedback.LogOnlyGrows` | backend-ml/app.py:86-96 | across any series of requests, earlier entries stay in place and in order, and the log grows by exactly the number of valid requests |
| `Feedback.DuplicatesAreKept` | backend-ml/app.py:86-96 | the same valid body sent twice is logged twice |
| `Feedback.FeedbackLog.LogUserFeedback` | backend-ml/app.py:86-96 | appends exactly one record at the end and leaves earlier entries unchanged |
| `Feedback.FeedbackLog.SubmitFeedback` | backend-ml/app.py:156-184 | a body missing a field fails 400 with the log unchanged; a complete one appends its record and answers "Feedback recorded." |

## Left out

- Authentication (`get_current_user`) is not part of this model. The caller is passed in as the id of an authenticated, stored user.
- Password hashing (`get_password_hash`) is not part of this model. It is a function parameter that the model treats as deterministic; the real hash may be salted.
- `Tables.OwnedNewestFirst`: the store's clock is a counter that goes up on every insert, so no two rows share a `created_at`. The real server `now()` can give equal timestamps, and the query leaves their order open. The model does not cover those ties.
- SQLAlchemy sessions, autoflush and rollback are left out. The profile patch is modelled as "build the new row, then commit it atomically", which is the effect of the single `commit` at `user_router.py:58`.
- The `user_id` foreign keys of the BMI and food tables are not checked. The tables do not hold the user store, so the model only records that the owner is the authenticated caller.
- `FoodRouter.FoodForm`: the form's `mode` arrives already as one of the two enum members. The router itself accepts any string there, and what the database layer does with another string is not modelled.
- The upload time is a parameter: the `%Y%m%d_%H%M%S` string made from `datetime.now()`.
- Writing image files is not modelled: the photo copy in `food_router.py:54-55` and the upload save in `app.py:128-129`. The feedback log's JSON-file read and write is a sequence field. The unlocked read-modify-write race on that file is not modelled.
- The classifier is a function parameter from the uploaded file to one confidence per class. Model loading, placeholder files and `preprocess_image` (`app.py:20-82`) are left out, since they are framework and image code.
- `Prediction.Gate`: confidences are mathematical reals. The float32 outputs and their rounding against the double 0.7 are not modelled.
- `Prediction.TopIndices` is a selection with the same contract as the top three of an `argsort`, not numpy's sort itself.
- The GET branches of `/predict` and `/feedback` are left out. They only return usage text, as does the index route.
- `Feedback.SubmitFeedback`: the body is a JSON object. Bodies that are not objects, and the content-type handling of `get_json`, are left out.
- Request parsing by the frameworks (Pydantic `EmailStr` syntax, 422 responses for malformed payloads) is left out. Payloads arrive already typed.
- Registration and its `UserCreate` payload (`schemas/user.py:9-15`) are not part of this model. The offline training scripts and the server wiring (CORS, static mounts, start-up scripts) are out of scope.
