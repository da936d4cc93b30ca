/**
 * The record shapes the app's logic passes around. They mirror the TypeScript
 * interfaces the components and services use (the interface file itself is
 * not part of this model; the fields below are the ones the modelled code
 * reads or writes). Display-only fields are kept as plain strings.
 */
module Types {

  datatype Option<T> = None | Some(value: T) {
    function GetOr(default: T): T {
      if Some? then value else default
    }
  }

  datatype Status = Pending | Completed

  datatype ItemKind = Skill | Project

  datatype Resource = Resource(title: string, url: string)

  /** One task of a roadmap; `completedAt` is a millisecond timestamp when present. */
  datatype RoadmapItem = RoadmapItem(
    id: string,
    title: string,
    description: string,
    explanation: string,
    kind: ItemKind,
    status: Status,
    duration: string,
    suggestedResources: seq<Resource>,
    completedAt: Option<int>)

  datatype Phase = Phase(phaseName: string, items: seq<RoadmapItem>)

  /** The auxiliary lists are `None` when the stored record has no such field. */
  datatype RoadmapData = RoadmapData(
    phases: seq<Phase>,
    recommendedCertificates: Option<seq<string>>,
    recommendedInternships: Option<seq<string>>)

  /** An element of a user's `activeCareers`; dates are ISO `YYYY-MM-DD` strings. */
  datatype CareerEnrollment = CareerEnrollment(
    careerId: string,
    title: string,
    targetCompletionDate: string,
    lastQuizDate: Option<string>)

  datatype UserProfile = UserProfile(
    id: string,
    username: string,
    streak: nat,
    xp: nat,
    activeCareers: seq<CareerEnrollment>,
    currentCareerId: Option<string>)

  datatype CareerOption = CareerOption(id: string, title: string, description: string, fitScore: int, reason: string)

  datatype NewsItem = NewsItem(title: string, url: string, source: string, summary: string, date: string)

  datatype DailyQuizItem = DailyQuizItem(question: string, options: seq<string>, correctIndex: int, explanation: string)

  datatype PracticeQuestion = PracticeQuestion(
    id: string, question: string, options: seq<string>, correctIndex: int, explanation: string, topic: string)

  datatype InterviewQuestion = InterviewQuestion(
    id: string, question: string, answer: string, explanation: string, company: string)

  datatype SkillQuestion = SkillQuestion(
    id: string, question: string, options: seq<string>, correctIndex: int, difficulty: string)

  datatype Level = Beginner | Intermediate | Advanced
}
