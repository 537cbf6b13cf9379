/** The user-side records the stores and the user database share
    (app/src/types/index.ts). Timestamps are the ISO strings the source
    writes; the clock that produces them is a parameter of each operation. */
module UserTypes {
  import opened Wrappers

  datatype MeasurementUnit = Metric | Imperial

  datatype ReminderFrequency = Daily | Weekly | ImportantOnly

  datatype Preferences = Preferences(
    measurementUnit: MeasurementUnit,
    notificationsEnabled: bool,
    reminderFrequency: ReminderFrequency)

  datatype UserProfile = UserProfile(
    id: int,
    dueDate: string,
    partnerName: Option<string>,
    locale: string,
    preferences: Preferences,
    createdAt: string,
    updatedAt: string)

  datatype AchievementCategory = Connection | Care | Preparedness | Consistency | Learning

  datatype Achievement = Achievement(
    id: string,
    title: string,
    category: AchievementCategory,
    points: int,
    target: int,
    progress: Option<int>,
    unlockedAt: Option<string>,
    completed: bool)

  datatype DadGrowth = DadGrowth(xp: int, level: int, title: string, nextLevelXp: int)

  /** A model-provider configuration; every field but the flag is optional
      on the way in. */
  datatype AiConfig = AiConfig(
    id: Option<int>,
    name: Option<string>,
    provider: Option<string>,
    baseUrl: Option<string>,
    apiKey: Option<string>,
    model: Option<string>,
    isActive: bool)

  datatype Role = User | Assistant | System

  datatype ChatMessage = ChatMessage(id: int, role: Role, content: string, timestamp: string)

  datatype MemoryType = General | Ultrasound | Shopping | MilestoneMemory | Funny

  datatype Memory = Memory(
    id: int,
    title: string,
    note: Option<string>,
    photoUri: Option<string>,
    kind: MemoryType,
    week: Option<int>,
    day: Option<int>,
    shared: bool,
    createdAt: string)

  datatype Milestone = Milestone(
    id: int,
    title: string,
    description: Option<string>,
    date: string,
    week: Option<int>,
    photoUri: Option<string>,
    templateId: Option<string>,
    createdAt: string)
}
