/** The fixed learning plan the backend serves when the generative service
    cannot provide one (`generateMockLearningPlan`), with its per-role topic
    tables (`getJobSpecificTitle`). */
module MockPlan {
  import opened Wrappers
  import opened Text
  import opened External

  const DefaultRole := "Marketing Coordinator"
  const ShortRole := "Software Developer"
  const PlanDays := 30
  const DayKinds: seq<string> := ["reading", "video", "quiz", "game"]
  const DayDuration := "5 minutes"
  const EstimatedTime := "5 minutes per day"

  const FrontendDeveloperTopics: seq<string> := [
    "HTML Fundamentals", "CSS Basics", "JavaScript Introduction", "DOM Manipulation", "ES6 Features",
    "React Basics", "Components & Props", "State Management", "Event Handling", "Hooks Introduction",
    "useEffect Hook", "Custom Hooks", "Context API", "Routing", "Forms",
    "API Integration", "Error Handling", "Testing Basics", "Performance", "Accessibility",
    "Responsive Design", "CSS Grid", "Flexbox", "Animations", "Build Tools",
    "Git & GitHub", "Deployment", "Code Review", "Best Practices", "Final Project"
  ]

  const DataAnalystTopics: seq<string> := [
    "Excel Basics", "Data Types", "Formulas & Functions", "Pivot Tables", "Charts & Graphs",
    "Python Introduction", "Pandas Library", "Data Cleaning", "Data Visualization", "Statistics Basics",
    "Descriptive Statistics", "Inferential Statistics", "Hypothesis Testing", "Correlation", "Regression",
    "SQL Basics", "Database Queries", "Joins", "Aggregations", "Data Modeling",
    "Dashboard Creation", "Storytelling with Data", "Business Intelligence", "KPIs", "Reporting",
    "Advanced Analytics", "Forecasting", "A/B Testing", "Case Studies", "Final Project"
  ]

  const MarketingCoordinatorTopics: seq<string> := [
    "Marketing Fundamentals", "Target Audience Research", "Brand Positioning", "Marketing Mix (4Ps)", "Consumer Behavior",
    "Digital Marketing Basics", "Social Media Marketing", "Content Marketing", "Email Marketing", "SEO Fundamentals",
    "Google Analytics", "Facebook Ads Manager", "Instagram Marketing", "LinkedIn Marketing", "Twitter Marketing",
    "Content Creation", "Copywriting Basics", "Visual Design Principles", "Photography for Marketing", "Video Marketing",
    "Campaign Planning", "Budget Management", "ROI Measurement", "A/B Testing", "Marketing Automation",
    "Customer Journey Mapping", "Lead Generation", "CRM Basics", "Event Marketing", "Final Campaign Project"
  ]

  const JuniorDataAnalystTopics: seq<string> := [
    "Data Literacy", "Excel Fundamentals", "Data Types & Formats", "Basic Statistics", "Data Collection",
    "Data Cleaning Basics", "Sorting & Filtering", "Pivot Tables", "VLOOKUP & HLOOKUP", "Charts & Graphs",
    "Statistical Concepts", "Mean, Median, Mode", "Standard Deviation", "Data Distributions", "Correlation Analysis",
    "Introduction to SQL", "Basic Queries", "WHERE Clauses", "GROUP BY", "JOINs",
    "Data Visualization", "Dashboard Design", "Storytelling with Data", "Presentation Skills", "Business Context",
    "Quality Assurance", "Data Ethics", "Documentation", "Final Analysis Project", "Portfolio Building"
  ]

  const SoftwareDeveloperTopics: seq<string> := [
    "Programming Fundamentals", "Problem Solving", "Algorithms", "Data Structures", "Version Control (Git)",
    "Object-Oriented Programming", "Functions & Methods", "Error Handling", "Testing Basics", "Code Documentation",
    "Web Development Basics", "APIs & HTTP", "Databases", "Security Fundamentals", "Code Review Process",
    "Agile Methodology", "Project Planning", "User Stories", "Sprint Planning", "Team Collaboration",
    "Performance Optimization", "Debugging Techniques", "Best Practices", "Deployment", "Final Project"
  ]

  const SalesRepresentativeTopics: seq<string> := [
    "Sales Fundamentals", "Customer Psychology", "Active Listening", "Rapport Building", "Needs Assessment",
    "Product Knowledge", "Value Proposition", "Features vs Benefits", "Competitive Analysis", "Objection Handling",
    "Sales Process", "Lead Qualification", "Discovery Questions", "Presentation Skills", "Closing Techniques",
    "CRM Systems", "Pipeline Management", "Follow-up Strategies", "Customer Retention", "Upselling & Cross-selling",
    "Time Management", "Territory Planning", "Networking", "Social Selling", "Sales Analytics",
    "Negotiation Skills", "Contract Basics", "Customer Success", "Continuous Learning", "Final Sales Project"
  ]

  const ProjectManagerTopics: seq<string> := [
    "Project Management Basics", "Project Lifecycle", "Stakeholder Management", "Scope Definition", "Requirements Gathering",
    "Work Breakdown Structure", "Scheduling", "Resource Planning", "Budget Management", "Risk Assessment",
    "Team Leadership", "Communication Skills", "Meeting Management", "Conflict Resolution", "Change Management",
    "Agile Methodology", "Scrum Framework", "Kanban Boards", "Sprint Planning", "Retrospectives",
    "Project Tools", "Gantt Charts", "Progress Tracking", "Quality Assurance", "Documentation",
    "Performance Metrics", "Lessons Learned", "Project Closure", "Stakeholder Reporting", "Final Project Plan"
  ]

  const HumanResourcesCoordinatorTopics: seq<string> := [
    "HR Fundamentals", "Employment Law Basics", "Recruitment Process", "Job Descriptions", "Interview Techniques",
    "Onboarding Process", "Employee Relations", "Performance Management", "Compensation & Benefits", "HRIS Systems",
    "Training & Development", "Employee Engagement", "Workplace Diversity", "Conflict Resolution", "Documentation",
    "Compliance Requirements", "Safety Regulations", "Employee Handbook", "Policy Development", "Grievance Procedures",
    "Data Analysis", "HR Metrics", "Retention Strategies", "Exit Interviews", "Culture Building",
    "Communication Skills", "Confidentiality", "Ethical Practices", "Change Management", "HR Strategy"
  ]

  const CustomerServiceRepresentativeTopics: seq<string> := [
    "Customer Service Basics", "Communication Skills", "Active Listening", "Empathy & Patience", "Problem Solving",
    "Product Knowledge", "Company Policies", "Service Standards", "First Call Resolution", "De-escalation Techniques",
    "Phone Etiquette", "Email Communication", "Chat Support", "CRM Systems", "Ticket Management",
    "Complaint Handling", "Refund Processes", "Escalation Procedures", "Customer Retention", "Upselling Basics",
    "Time Management", "Multitasking", "Stress Management", "Team Collaboration", "Quality Assurance",
    "Customer Feedback", "Continuous Improvement", "Service Recovery", "Relationship Building", "Final Case Study"
  ]
  /** The topic table a role names, if it names one. */
  function RoleTopics(role: string): Option<seq<string>>
  {
    if role == "Frontend Developer" then Some(FrontendDeveloperTopics)
    else if role == "Data Analyst" then Some(DataAnalystTopics)
    else if role == "Marketing Coordinator" then Some(MarketingCoordinatorTopics)
    else if role == "Junior Data Analyst" then Some(JuniorDataAnalystTopics)
    else if role == "Software Developer" then Some(SoftwareDeveloperTopics)
    else if role == "Sales Representative" then Some(SalesRepresentativeTopics)
    else if role == "Project Manager" then Some(ProjectManagerTopics)
    else if role == "Human Resources Coordinator" then Some(HumanResourcesCoordinatorTopics)
    else if role == "Customer Service Representative" then Some(CustomerServiceRepresentativeTopics)
    else None
  }

  /** The role's table, or the Marketing Coordinator table for a role
      without one. */
  function TopicsFor(role: string): seq<string>
  {
    match RoleTopics(role)
    case Some(topics) => topics
    case None => MarketingCoordinatorTopics
  }

  /** `getJobSpecificTitle`: the day's entry in the role's table, or
      `<role> Topic <day>` when the table has no entry for that day. */
  function GetJobSpecificTitle(role: string, day: int): string
  {
    var topics := TopicsFor(role);
    if 1 <= day <= |topics| then topics[day - 1] else role + " Topic " + IntToString(day)
  }

  /** Every table has thirty entries except the Software Developer one, which
      has twenty-five. */
  lemma TableLength(role: string)
    ensures |TopicsFor(role)| == if role == ShortRole then 25 else PlanDays
  {
  }

  /** A role without a table gets the Marketing Coordinator topics for all
      thirty days. */
  lemma UnknownRoleUsesMarketingTopics(role: string, day: int)
    requires RoleTopics(role).None? && 1 <= day <= PlanDays
    ensures GetJobSpecificTitle(role, day) == GetJobSpecificTitle(DefaultRole, day) == MarketingCoordinatorTopics[day - 1]
  {
    TableLength(role);
    TableLength(DefaultRole);
  }

  /** The Software Developer table runs out after day 25. */
  lemma SoftwareDeveloperRunsOut(day: int)
    requires 25 < day <= PlanDays
    ensures GetJobSpecificTitle(ShortRole, day) == "Software Developer Topic " + NatToString(day)
  {
    TableLength(ShortRole);
  }

  /** Every other role has a table entry for each of the thirty days, and no
      role has one outside them. */
  lemma TableCoversPlan(role: string, day: int)
    ensures role != ShortRole && 1 <= day <= PlanDays ==> GetJobSpecificTitle(role, day) in TopicsFor(role)
    ensures !(1 <= day <= PlanDays) ==> GetJobSpecificTitle(role, day) == role + " Topic " + IntToString(day)
  {
    TableLength(role);
  }

  datatype PlanDay = PlanDay(day: int, title: string, kind: string, duration: string, completed: bool)

  datatype LearningPlan = LearningPlan(
    title: string,
    description: string,
    totalDays: int,
    estimatedTime: string,
    generatedAt: string,
    career: Json,
    days: seq<PlanDay>)

  /** Day `i + 1` of the fallback plan. */
  function MockDay(jobTitle: string, i: nat): PlanDay
  {
    PlanDay(i + 1, "Day " + NatToString(i + 1) + ": " + GetJobSpecificTitle(jobTitle, i + 1),
            DayKinds[i % 4], DayDuration, false)
  }

  /** `generateMockLearningPlan`: thirty days numbered from one, rotating
      reading, video, quiz and game, five minutes each, none completed, each
      titled after the role's topic for that day. The clock reading is a
      parameter. */
  function MockLearningPlan(jobTitle: string, career: Json, generatedAt: string): (plan: LearningPlan)
    ensures plan.totalDays == |plan.days| == PlanDays
    ensures plan.career == career && plan.generatedAt == generatedAt && plan.estimatedTime == EstimatedTime
    ensures forall i :: 0 <= i < |plan.days| ==>
      plan.days[i].day == i + 1 && plan.days[i].kind == DayKinds[i % 4] &&
      plan.days[i].duration == DayDuration && !plan.days[i].completed &&
      plan.days[i].title == "Day " + NatToString(i + 1) + ": " + GetJobSpecificTitle(jobTitle, i + 1)
  {
    LearningPlan(
      jobTitle + " Learning Plan",
      "A personalized 30-day learning plan to prepare you for a " + jobTitle + " role",
      PlanDays,
      EstimatedTime,
      generatedAt,
      career,
      seq(PlanDays, i requires 0 <= i < PlanDays => MockDay(jobTitle, i)))
  }

  /** The day kinds repeat every four days, starting with reading. */
  lemma MockKindsRotate(jobTitle: string, career: Json, generatedAt: string, i: nat)
    requires i + 4 < PlanDays
    ensures MockLearningPlan(jobTitle, career, generatedAt).days[0].kind == "reading"
    ensures MockLearningPlan(jobTitle, career, generatedAt).days[i + 4].kind ==
            MockLearningPlan(jobTitle, career, generatedAt).days[i].kind
  {
    assert (i + 4) % 4 == i % 4;
  }
}
