/**
  The records of `src/data/types.ts` that the core reads or builds. Field names follow
  the source, except that `_id` is `id` and `__v` is `version`. Every optional field
  (`x?: T`) is an `Option`.
 */
module Types {
  import opened Wrappers

  datatype Skill = Skill(id: string, skill: string, yearsOfExperience: real, version: int)

  datatype Experience = Experience(
    id: string, positionTitle: string, company: string, location: string,
    experienceType: string, currentlyWorking: bool,
    startMonth: string, startYear: int, endMonth: string, endYear: int,
    description: string, version: int, createdAt: string, updatedAt: string)

  datatype Education = Education(
    id: string, schoolName: string, major: string, degreeType: string, gpa: real,
    startMonth: string, startYear: int, endMonth: string, endYear: int,
    description: string, version: int, createdAt: string, updatedAt: string)

  datatype Project = Project(
    id: string, projectName: string, description: string, url: Option<string>,
    technologiesUsed: seq<string>, startDate: string, endDate: string,
    version: int, createdAt: string, updatedAt: string)

  datatype UniversalResume = UniversalResume(
    id: string, userId: string, parentResumeId: string, originalName: string, s3Url: string)

  datatype Resume = Resume(
    id: string, userId: string, originalName: string, s3Url: string, isPrimary: bool,
    skills: seq<Skill>, experience: seq<Experience>, education: seq<Education>,
    projects: seq<Project>, importantLinks: map<string, string>,
    createdAt: string, updatedAt: string, version: int,
    universalResume: Option<UniversalResume>)

  datatype ItemType = Regular | Universal

  /** An entry of the resume dropdown; `resume` is the parent resume for a universal entry. */
  datatype DropdownResumeItem = DropdownResumeItem(
    id: string, name: string, itemType: ItemType, resume: Resume,
    universalResume: Option<UniversalResume>)

  /** A scraped job record; every field may be absent. */
  datatype SaveJobBody = SaveJobBody(
    jobId: Option<string>, jobTitle: Option<string>, jobDescription: Option<string>,
    jobLink: Option<string>, imageUrl: Option<string>, companyName: Option<string>,
    companyUrl: Option<string>, companyLogo: Option<string>, location: Option<string>,
    sourceType: Option<string>)

  /** The empty record `{}`. */
  const EmptyJobBody := SaveJobBody(None, None, None, None, None, None, None, None, None, None)

  /** Where a site keeps the fields of a job posting (`companyUrlSelector` is spelled
      `compnayUrlSelector` in the source). */
  datatype SaveJobSelectorProps = SaveJobSelectorProps(
    jobTitleSelector: Option<string>, jobDescriptionSelector: Option<string>,
    jobLinkSelector: Option<string>, imageUrlSelector: Option<string>,
    companyNameSelector: Option<string>, companyUrlSelector: Option<string>,
    companyLogoSelector: Option<string>, locationSelector: Option<string>,
    sourceType: Option<string>)
}
