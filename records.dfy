/** The rows the pages keep in memory, after the table types of the store (user id and creation time left out). */
module Records {
  import opened Wrappers

  /** The three skill levels, in increasing order. */
  const LEVELS: seq<string> := ["beginner", "intermediate", "advanced"]
  const BEGINNER := "beginner"
  const INTERMEDIATE := "intermediate"
  const ADVANCED := "advanced"

  datatype Skill = Skill(id: string, name: string, level: string, tags: seq<string>)

  datatype Course = Course(id: string, title: string, status: string)

  datatype Project = Project(
    id: string, title: string, description: Option<string>, url: Option<string>,
    repoUrl: Option<string>, imageUrl: Option<string>, notes: Option<string>,
    summary: Option<string>, tags: seq<string>)

  /** A learning resource: exactly one of the three owner fields is set when it is added from a notes panel. */
  datatype LearningResource = LearningResource(
    id: string, title: string, url: string, resourceType: string,
    courseId: Option<string>, moduleId: Option<string>, projectId: Option<string>)
}
