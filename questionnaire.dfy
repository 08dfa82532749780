/** `OnboardingQuestionnaire`: three questions (goals, experience, reminder
    time) answered one step at a time, then handed on as preferences. */
module Questionnaire {
  import opened Wrappers
  import opened ListToggle

  const GoalIds: seq<string> := ["health", "productivity", "mindfulness", "learning", "creativity", "social"]
  const ExperienceIds: seq<string> := ["beginner", "intermediate", "advanced"]
  const ReminderIds: seq<string> := ["morning", "afternoon", "evening", "night"]

  /** The number of questions. */
  const StepCount: int := 3

  /** What `onComplete` receives. */
  datatype Preferences = Preferences(goals: seq<string>, experience: string, reminderTime: string)

  class Form {
    var step: int
    var selectedGoals: seq<string>
    var selectedExperience: string
    var selectedReminder: string

    /** The step is one of the three, every answer is one of the options (or
        none yet), and no goal is selected twice. Each question's buttons are
        shown only on its own step and Continue needs an answer, so every
        question before the current one has been answered. */
    ghost predicate Valid()
      reads this
    {
      0 <= step < StepCount &&
      (step >= 1 ==> selectedGoals != []) &&
      (step >= 2 ==> selectedExperience != "") &&
      NoDuplicates(selectedGoals) && (forall g :: g in selectedGoals ==> g in GoalIds) &&
      (selectedExperience == "" || selectedExperience in ExperienceIds) &&
      (selectedReminder == "" || selectedReminder in ReminderIds)
    }

    constructor ()
      ensures Valid() && step == 0 && selectedGoals == [] && selectedExperience == "" && selectedReminder == ""
    {
      step := 0;
      selectedGoals := [];
      selectedExperience := "";
      selectedReminder := "";
    }

    /** Clicking the `index`-th goal, on the first question: `toggleGoal`
        removes a selected goal and appends an unselected one. */
    method ToggleGoal(index: int)
      requires Valid() && step == 0 && 0 <= index < |GoalIds|
      modifies this
      ensures Valid() && selectedGoals == Toggle(old(selectedGoals), GoalIds[index])
      ensures step == old(step) && selectedExperience == old(selectedExperience) && selectedReminder == old(selectedReminder)
    {
      ToggleNoDuplicates(selectedGoals, GoalIds[index]);
      selectedGoals := Toggle(selectedGoals, GoalIds[index]);
    }

    /** Clicking the `index`-th experience level, on the second question. */
    method SelectExperience(index: int)
      requires Valid() && step == 1 && 0 <= index < |ExperienceIds|
      modifies this
      ensures Valid() && selectedExperience == ExperienceIds[index]
      ensures step == old(step) && selectedGoals == old(selectedGoals) && selectedReminder == old(selectedReminder)
    {
      selectedExperience := ExperienceIds[index];
    }

    /** Clicking the `index`-th reminder time, on the third question. */
    method SelectReminder(index: int)
      requires Valid() && step == 2 && 0 <= index < |ReminderIds|
      modifies this
      ensures Valid() && selectedReminder == ReminderIds[index]
      ensures step == old(step) && selectedGoals == old(selectedGoals) && selectedExperience == old(selectedExperience)
    {
      selectedReminder := ReminderIds[index];
    }

    /** Whether the current question has an answer; false off the three steps. */
    function CanProceed(): bool
      reads this
    {
      match step
      case 0 => |selectedGoals| > 0
      case 1 => selectedExperience != ""
      case 2 => selectedReminder != ""
      case _ => false
    }

    /** `handleComplete`: the current answers, exactly as selected. */
    function Answers(): Preferences
      reads this
    {
      Preferences(selectedGoals, selectedExperience, selectedReminder)
    }

    /** The Continue / Get Started button: disabled without an answer; moves to
        the next question, or on the last one completes with the answers. */
    method Continue() returns (completed: Option<Preferences>)
      requires Valid()
      modifies this
      ensures Valid()
      ensures selectedGoals == old(selectedGoals) && selectedExperience == old(selectedExperience)
      ensures selectedReminder == old(selectedReminder)
      ensures !old(CanProceed()) ==> step == old(step) && completed == None
      ensures old(CanProceed()) && old(step) < StepCount - 1 ==> step == old(step) + 1 && completed == None
      ensures old(CanProceed()) && old(step) == StepCount - 1 ==> step == old(step) && completed == Some(Answers())
      ensures completed.Some? ==>
                completed.value.goals != [] && completed.value.experience != "" && completed.value.reminderTime != ""
    {
      completed := None;
      if CanProceed() {
        if step < StepCount - 1 {
          step := step + 1;
        } else {
          completed := Some(Answers());
        }
      }
    }

    /** The Back button, shown only after the first question. */
    method Back()
      requires Valid()
      modifies this
      ensures Valid()
      ensures selectedGoals == old(selectedGoals) && selectedExperience == old(selectedExperience)
      ensures selectedReminder == old(selectedReminder)
      ensures step == if old(step) > 0 then old(step) - 1 else old(step)
    {
      if step > 0 {
        step := step - 1;
      }
    }

    /** "Skip for now": completes with whatever is selected, answered or not;
        every answer given is still one of the options, without duplicates, and
        the questions before the current one are answered. */
    method Skip() returns (completed: Preferences)
      requires Valid()
      ensures completed == Answers()
      ensures NoDuplicates(completed.goals) && forall g :: g in completed.goals ==> g in GoalIds
      ensures completed.experience == "" || completed.experience in ExperienceIds
      ensures completed.reminderTime == "" || completed.reminderTime in ReminderIds
      ensures step >= 1 ==> completed.goals != []
      ensures step >= 2 ==> completed.experience != ""
    {
      completed := Answers();
    }
  }

  /** Skipping straight away completes with no answers at all, which Continue
      never does. */
  method SkipUnanswered() returns (p: Preferences)
    ensures p.goals == [] && p.experience == "" && p.reminderTime == ""
  {
    var form := new Form();
    p := form.Skip();
  }
}
