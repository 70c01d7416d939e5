# Smart-resume backend: request handling, modelled in Dafny

This project models the request handlers of a small job-application tracking
backend (FastAPI over SQLAlchemy). It covers job listings, a user's own job
applications, resume upload and listing, the resume-versus-job-description
analysis route, and profile updates. It also models how the database
connection string is chosen.

The ORM is abstracted away:

- Each table is a `seq` of records in insertion order.
- The filter, first-match, offset, limit and order-by queries are the
  functions of module `Query` (and `Resumes.SortByDate`).
- The caller's identity is a plain user id.
- A table that the source writes to is a `class` holding its rows. The
  tables the source inserts into (applications and resumes) also hold the id
  counter that stands for autoincrement and the database clock that stands
  for `created_at = now()`. Every insert takes the clock reading `now` and
  requires `clock <= now`: the clock is assumed monotone. The user table is
  only updated in place, so `Users.UserTable` holds only its rows.

The analysis route works as follows in the model:

- The parsed PDF is an input. It is either the page texts in order or the
  exception message.
- The API key variables are inputs of type `Option<string>`.
- The model call together with `json.loads` is an input function `Engine`. Given
  the job description and the extracted text, it returns either the decoded
  JSON or the exception message.
- Everything between those inputs is modelled: the extraction fallbacks, the
  key check, the key-by-key defaulting, the fixed fallback answer, and the row
  written for a signed-in caller.

Modules: `Common` (Option, Result, the 404 error), `Strings` (Python `str`
operations: startswith, `in`, `lower`, `isspace`/`strip`), `Query`, `JsonData`,
`Models` (the records and request bodies), `Database`, `Jobs`, `Applications`,
`ResumeAnalysis`, `Resumes`, `Users`.

Two behaviours of the code that are easy to get wrong:

- `ApplicationCreate.status` may arrive as `None`. SQLAlchemy leaves
  `None`-valued attributes out of the INSERT, so the column default "Applied"
  is stored. The model therefore stores `status.GetOr("Applied")`.
- `analyze_resume_match` raises a 400 for a non-PDF name at
  routers/resume.py:38, inside the `try` that line 50 catches, so the client
  never sees it. A non-PDF name yields the "Could not extract text"
  placeholder instead.

## Model

| member | source | states |
|---|---|---|
| `Query.Where` | routers/applications.py:18 | a filtered listing holds exactly the rows of the table that satisfy the filter, is no longer than the table, and is a sub-multiset of it |
| `Query.WhereAppend` | routers/applications.py:18 | filtering distributes over concatenation, so a listing keeps table order |
| `Query.IndexWhere` | routers/applications.py:49-52 | `.first()` finds the first row satisfying the filter, and finds none exactly when no row satisfies it |
| `Query.Limit` | routers/jobs.py:17 | `.limit(n)` keeps the first min(n, length) rows unchanged |
| `Query.Offset` | routers/jobs.py:17 | `.offset(k)` drops the first k rows and keeps the rest in order |
| `Strings.Lower` | routers/resume.py:37 | lower-casing keeps the length, leaves no ASCII capital in the result, and leaves a string without capitals unchanged |
| `Strings.ContainsAt` | routers/resume.py:60 | an occurrence of the pattern at any position makes `pattern in s` true |
| `Strings.ContainsHasOccurrence` | routers/resume.py:60 | conversely, `pattern in s` is witnessed by an occurrence at some position |
| `Strings.StripEmptyIffAllSpace` | routers/resume.py:47 | `not s.strip()` holds exactly when every character of s is Python whitespace |
| `JsonData.Get` | routers/resume.py:126-135 | `dict.get(k, d)` returns the stored value whenever the key is present, even a stored null, and the default only for a missing key |
| `Database.ReplaceFirstLeftmost` | database.py:11 | `s.replace(pat, rep, 1)` rewrites exactly the leftmost occurrence: with the first occurrence at i, the result is the text before position i, then `rep`, then the text after that occurrence |
| `Database.ReplaceFirstAbsent` | database.py:11 | the count-1 replace leaves a string without the pattern unchanged |
| `Database.FixScheme` | database.py:10-11 | a `postgres://` URL becomes `postgresql://` plus the original remainder, any other URL is unchanged, and the result never starts with `postgres://` |
| `Database.FixSchemeIdempotent` | database.py:10-11 | fixing the scheme twice gives the same URL as fixing it once |
| `Database.FixSchemeKeepsRest` | database.py:11 | a later `postgres://` inside the URL survives, because only the leading scheme is replaced |
| `Database.JoinPath` | database.py:16 | `os.path.join(dir, name)` is `dir + name` when the directory is empty or ends with "/", and `dir + "/" + name` otherwise |
| `Database.SqliteUrl` | database.py:14-16 | the default URL is `sqlite:///` followed by the base directory joined with `stitch.db` |
| `Database.DatabaseUrl` | database.py:6-16 | a set, non-empty `DATABASE_URL` is returned with its scheme fixed, and an unset or empty one gives the SQLite default; the result is non-empty and never has the `postgres://` scheme |
| `Database.DatabaseUrlStable` | database.py:6-16 | feeding the chosen URL back in as `DATABASE_URL` chooses the same URL |
| `Jobs.ListJobs` | routers/jobs.py:15-18 | `GET /jobs/` returns min(limit, n - skip) jobs, the i-th being the job at position skip + i; past the end it returns none |
| `Jobs.ListJobsIsSlice` | routers/jobs.py:17 | the listing is exactly `jobs[skip .. min(skip + limit, n)]` |
| `Jobs.ListJobsDefaults` | routers/jobs.py:16-17 | with the defaults skip = 0 and limit = 100 the listing is the first hundred jobs, and an empty table lists `[]` |
| `Jobs.MatchJobs` | routers/jobs.py:20-31 | the match stub returns exactly min(5, n) entries; entry i carries the i-th job of the table, match percentage 95 and missing skills ["Kubernetes"] |
| `Jobs.JobDetail` | routers/jobs.py:33-38 | the lookup succeeds exactly when some job has the id; it returns the first such job, and otherwise fails with 404 "Job not found" |
| `Applications.Revised` | routers/applications.py:57-60 | status and notes are overwritten only by a supplied non-empty value; id, owner, job and creation time never change |
| `Applications.RevisedByEmptyBody` | routers/applications.py:57-60 | an update body with None or "" in both fields leaves the row unchanged |
| `Applications.RevisedIdempotent` | routers/applications.py:57-60 | applying an update body twice equals applying it once |
| `Applications.Updated` | routers/applications.py:49-63 | the update keeps the table's length and every row's id, owner, job and creation time; rows other than the caller's target are unchanged; the first row with that id owned by the caller becomes that row revised by the body; with no target the table is unchanged |
| `Applications.UpdatedIdempotent` | routers/applications.py:57-62 | applying the same update to the table twice gives the same table as applying it once |
| `Applications.ApplicationTable.ListFor` | routers/applications.py:16-18 | the listing holds exactly the caller's applications |
| `Applications.ApplicationTable.Create` | routers/applications.py:20-40 | an unknown job id fails with 404 and leaves the table, counter and clock unchanged; otherwise exactly one row is appended, owned by the caller, with the request's job, its status or "Applied", its notes, a fresh id and the current time; the caller's listing grows by that row and other users' listings stay the same |
| `Applications.ApplicationTable.Update` | routers/applications.py:42-64 | an id that is missing or owned by another user fails with 404 and changes nothing; otherwise only the caller's target row is revised |
| `ResumeAnalysis.JoinPagesAppend` | routers/resume.py:42-44 | the extracted text is the page texts concatenated in page order |
| `ResumeAnalysis.ExtractedText` | routers/resume.py:36-52 | a non-PDF file name or an unreadable document yields "Could not extract text. Filename: name"; whatever the input, the text handed on is never blank |
| `ResumeAnalysis.PdfNameIff` | routers/resume.py:37 | a name passes the PDF test exactly when it has at least four characters and its last four lower-case to ".pdf" |
| `ResumeAnalysis.UpperPdfAccepted` | routers/resume.py:37 | a name ending in ".PDF" passes the PDF test |
| `ResumeAnalysis.DocxRefused` | routers/resume.py:37-38 | a name ending in ".docx" fails the PDF test |
| `ResumeAnalysis.ExtractedFromPages` | routers/resume.py:42-48 | a readable PDF yields its joined page texts, or "Resume filename: name (Empty or scanned PDF)" when they are whitespace only |
| `ResumeAnalysis.ExtractText` | routers/resume.py:36-52 | the page loop accumulates exactly the extraction result defined above |
| `ResumeAnalysis.ChosenKey` | routers/resume.py:58 | `GEMINI_API_KEY` is used when it is set and non-empty, and `GOOGLE_API_KEY` otherwise |
| `ResumeAnalysis.RealKeyAccepted` | routers/resume.py:60 | a non-empty key with no occurrence of "YOUR_GEMINI" is accepted |
| `ResumeAnalysis.PlaceholderShadowsGoogleKey` | routers/resume.py:58-61 | a placeholder `GEMINI_API_KEY` is chosen over `GOOGLE_API_KEY` and then refused, even when the Google key is valid |
| `ResumeAnalysis.GoogleKeyDecidesWhenGeminiUnset` | routers/resume.py:58-61 | with `GEMINI_API_KEY` unset or empty, the key is accepted or refused exactly as `GOOGLE_API_KEY` would be |
| `ResumeAnalysis.KeyProblem` | routers/resume.py:60-61 | the key is refused, with the fixed message, exactly when it is missing, empty or contains "YOUR_GEMINI" |
| `ResumeAnalysis.PlaceholderKeyRefused` | routers/resume.py:60-61 | a key with "YOUR_GEMINI" anywhere in it is refused |
| `ResumeAnalysis.Encode` | routers/resume.py:125-136 | the response body has exactly the eight response keys, each mapped to its field |
| `ResumeAnalysis.Shaped` | routers/resume.py:125-136 | each of the eight response keys is taken from the reply when present, and otherwise gets its listed default |
| `ResumeAnalysis.ShapedEncode` | routers/resume.py:125-136 | shaping a reply that is already a response body gives back that response |
| `ResumeAnalysis.ShapedCompleteReply` | routers/resume.py:125-136 | a reply with all eight keys is passed through on those keys, and extra keys are dropped |
| `ResumeAnalysis.ShapedEmptyReply` | routers/resume.py:126-135 | an empty reply gets candidateName "Applicant", score 0, matchRate 0, strengths ["No strengths identified"], recommendedFields ["General Roles"] and feedback "Analysis complete." |
| `ResumeAnalysis.Fallback` | routers/resume.py:141-152 | the fallback answer has candidateName "Applicant", score 50, matchRate 45, strengths ["Document received"], recommendedFields ["Pending Analysis"] and gaps ["AI Analysis failed: " + message] |
| `ResumeAnalysis.DefaultsTyped` | schemas/resume.py:32-40 | every default has the type the response schema declares for its key |
| `ResumeAnalysis.FallbackWellTyped` | schemas/resume.py:27-40 | the fallback answer matches the response schema whatever the failure message |
| `ResumeAnalysis.ShapedWellTyped` | routers/resume.py:125-136 | a reply whose present keys are well typed gives a well-typed answer |
| `ResumeAnalysis.ScoreValue` | routers/resume.py:118 | `float(score)` converts an integer to itself and fails for null, text, lists and objects |
| `ResumeAnalysis.Analyze` | routers/resume.py:55-152 | a refused key, a failed call and a non-object reply each give the fallback with the matching message and save nothing; an anonymous caller never saves; a row is saved only for a signed-in caller whose object reply has a convertible score, and then holds the reply's candidateName (default "Applicant"), recommendedFields (default []), the converted score (default 0) and `{"analysis": reply}`; an object reply is answered with the shaped reply for an anonymous caller and for a signed-in caller whose score converts, while an unconvertible score gives the fallback with the conversion error and saves nothing |
| `ResumeAnalysis.FailureAnswersFallback` | routers/resume.py:138-152 | every key or call failure still answers with a well-typed body carrying score 50 and match rate 45, and saves nothing |
| `Resumes.SortByDate` | routers/resume.py:156 | ordering by `created_at` descending yields a rearrangement of the rows, each at least as new as the next |
| `Resumes.Newest` | routers/resume.py:156 | the newest-five cut has min(5, n) rows taken from the input, newest first, and nothing omitted is newer than a row kept |
| `Resumes.ResumeTable.Latest` | routers/resume.py:154-156 | `GET /resume/` lists at most five of the caller's own resumes, newest first; no omitted resume of the caller is newer than any listed one |
| `Resumes.ResumeTable.Find` | routers/resume.py:158-163 | lookup succeeds exactly when a resume with that id is owned by the caller, returns such a resume, and otherwise fails with 404 "Resume not found" |
| `Resumes.ResumeTable.Upload` | routers/resume.py:165-183 | exactly one row is appended: fresh id, the caller as owner, file path "/uploads/" + filename, the pending `parsed_data`, score 0, no name or fields, the current time; the caller can then look it up, and other users' listings are unchanged |
| `Resumes.ResumeTable.Update` | routers/resume.py:185-198 | the update returns the caller's resume, or 404 when it is missing or not owned, and (having no modifies clause) changes nothing |
| `Resumes.ResumeTable.AnalyzeMatch` | routers/resume.py:28-152 | the answer is the analysis of the extracted text; a row is appended only when the analysis saves one, with the caller as owner and file path "http://localhost:8000/uploads/" + filename, and then the id counter advances by one and the clock reads `now`; with nothing saved the rows, counter and clock are unchanged; anonymous calls leave the table unchanged |
| `Users.WithProfile` | routers/user.py:25-27 | career role, experience level and location preference take the submitted values, None included; id, email, password hash, full name and creation time are kept |
| `Users.WithProfileIgnoresAccountFields` | routers/user.py:17-27 | the email, password and full name in the body do not affect the result |
| `Users.WithProfileIdempotent` | routers/user.py:25-27 | submitting the same profile twice equals submitting it once |
| `Users.UserTable.Profile` | routers/user.py:13-15 | reading the profile returns the caller's stored row |
| `Users.UserTable.UpdateProfile` | routers/user.py:17-31 | the caller's row becomes the updated profile, the table keeps its length and every other user's row is unchanged |

## Left out

- routers/auth.py is not part of this model. The caller is a user-id parameter.
  The profile routes require that this id names an existing row, which the
  authentication dependency guarantees. For `analyze-match` the caller is an
  `Option`.
- Token issuing and checking, and password hashing (utils/security.py), are
  left out: they are foreign crypto libraries and wall-clock time. The default
  token lifetime there is 15 minutes (line 33). The 30-minute constant at
  line 9 is not used by that function.
- PDF parsing, the model call with its prompt text, and `json.loads` are
  inputs (`Document`, `Engine`), not modelled code. So are `load_dotenv` and
  `os.getenv`. The `print` calls are left out.
- Engine configuration, the session lifecycle (database.py:13-29), main.py
  wiring, migrate_db.py and routers/settings.py are left out: they are I/O
  plumbing or stubs with no logic.
- `improve_resume_ai` and `get_resume_score` (routers/resume.py:200-208) are
  left out: they return constants.
- Database commit or refresh failures are left out: the model assumes every
  write succeeds.
- Pydantic validation of request and response bodies is left out. Schema
  checks such as EmailStr and coercing "85" to an int are not modelled.
  `WellTyped` states the declared types strictly; it is not the validator.
- Jobs.ListJobs: `skip` and `limit` are `nat`, while routers/jobs.py:16
  accepts any `int`. A negative value is handed to the database as it is, and
  what happens then depends on the engine: SQLite treats a negative LIMIT as
  no limit, and PostgreSQL rejects a negative LIMIT or OFFSET. The model does
  not capture those requests.
- Strings.Lower: only ASCII letters are lower-cased. This is exact for the
  ".pdf" test, but it is not Python's full Unicode `lower`.
- ResumeAnalysis.ScoreValue: the float score column holds integers. JSON
  numbers with a fraction are not modelled. A text score is always treated as
  unconvertible, although Python's `float` accepts numeric text such as "85".
  Integers are stored exactly, while `float(n)` rounds integers above 2^53 and
  raises `OverflowError` beyond the double range; there the route answers
  with the fallback, whereas the model saves a row. The text message quotes
  the string as `'` + s + `'`, while Python prints `repr(s)`, which switches
  to double quotes around a string containing `'` and escapes special
  characters.
- Resumes.SortByDate: rows with equal `created_at` keep table order. SQL
  leaves their order unspecified. The listing properties do not depend on it.
- Only one SQLAlchemy detail is modelled: a `None` status falls back to the
  column default. Other column metadata (indexes, nullability, JSON
  `none_as_null`) is not.
