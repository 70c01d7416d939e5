/** The four tables (the files under models/) and the request bodies the routers accept
    (the files under schemas/), as plain records. Row ids and `created_at` values are
    integers supplied by the table that stores the row. */
module Models {
  import opened Common
  import opened JsonData

  /** models/job.py. */
  datatype Job = Job(
    id: int,
    title: string,
    company: string,
    description: string,
    location: Option<string>,
    createdAt: int)

  /** models/application.py. `status` always holds a string: the ORM leaves a
      `None` status out of the INSERT, so the column default "Applied" is stored. */
  datatype Application = Application(
    id: int,
    userId: int,
    jobId: int,
    status: string,
    notes: Option<string>,
    createdAt: int)

  /** models/resume.py. The JSON and nullable text columns hold a `Json`
      (`JNull` for SQL NULL); the float `score` column holds an integer. */
  datatype Resume = Resume(
    id: int,
    userId: int,
    filePath: string,
    parsedData: Json,
    candidateName: Json,
    recommendedFields: Json,
    score: int,
    createdAt: int)

  /** models/user.py. */
  datatype User = User(
    id: int,
    email: string,
    hashedPassword: string,
    fullName: Option<string>,
    careerRole: Option<string>,
    experienceLevel: Option<string>,
    locationPreference: Option<string>,
    createdAt: int)

  /** schemas/application.py `ApplicationCreate`. */
  datatype ApplicationCreate = ApplicationCreate(jobId: int, status: Option<string>, notes: Option<string>)

  /** The status an `ApplicationCreate` body gets when it leaves the field out. */
  const DefaultStatus := "Applied"

  /** schemas/application.py `ApplicationUpdate`: both fields default to `None`. */
  datatype ApplicationUpdate = ApplicationUpdate(status: Option<string>, notes: Option<string>)

  /** schemas/resume.py `ResumeBase`: a body without fields. */
  datatype ResumeBase = ResumeBase

  /** schemas/user.py `UserCreate`, which is also the profile-update body. */
  datatype UserCreate = UserCreate(
    email: string,
    password: string,
    fullName: string,
    careerRole: Option<string>,
    experienceLevel: Option<string>,
    locationPreference: Option<string>)
}
