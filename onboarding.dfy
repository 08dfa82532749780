/** `useOnboarding`: the guided tour over five steps, shown once until it is
    completed or skipped. The stored "onboarding complete" entry is a boolean
    field. */
module Onboarding {

  datatype Position = Top | Bottom | Left | Right

  datatype TourStep = TourStep(id: string, title: string, description: string, targetSelector: string, position: Position)

  const Steps: seq<TourStep> := [
    TourStep("welcome", "Welcome to Habit Tracker! \U{1F389}",
      "Let me show you around so you can start building better habits.", "[data-tour=\"header\"]", Bottom),
    TourStep("add-habit", "Add Your First Habit",
      "Click here to create a new habit you want to track daily.", "[data-tour=\"add-habit\"]", Bottom),
    TourStep("stats", "Track Your Progress",
      "See your overall statistics including total habits, daily completions, and streaks.", "[data-tour=\"stats\"]", Bottom),
    TourStep("calendar", "Calendar View",
      "Navigate through dates and see your habit completion history at a glance.", "[data-tour=\"calendar\"]", Left),
    TourStep("habits-list", "Your Habits List",
      "Check off habits as you complete them. Build streaks by staying consistent!", "[data-tour=\"habits-list\"]", Right)
  ]

  class Tour {
    var showOnboarding: bool
    var currentStep: int
    var isReady: bool
    /** Whether "onboarding complete" is stored. */
    var completed: bool

    /** The current step is always one of the five. */
    ghost predicate Valid()
      reads this
    {
      0 <= currentStep < |Steps|
    }

    /** Mounting: hidden at step 0 until the start-up check has run. */
    constructor (storedComplete: bool)
      ensures Valid() && !showOnboarding && currentStep == 0 && !isReady && completed == storedComplete
    {
      showOnboarding := false;
      currentStep := 0;
      isReady := false;
      completed := storedComplete;
    }

    /** The start-up check, once its delay has passed: the tour appears only
        when it was never completed. */
    method Start()
      requires Valid()
      modifies this
      ensures Valid() && currentStep == old(currentStep) && completed == old(completed)
      ensures !completed ==> showOnboarding && isReady
      ensures completed ==> showOnboarding == old(showOnboarding) && isReady == old(isReady)
    {
      if !completed {
        showOnboarding := true;
        isReady := true;
      }
    }

    /** `completeOnboarding`: stores the flag and hides the tour, leaving the step where it is. */
    method Complete()
      requires Valid()
      modifies this
      ensures Valid() && completed && !showOnboarding
      ensures currentStep == old(currentStep) && isReady == old(isReady)
    {
      completed := true;
      showOnboarding := false;
    }

    /** Advances one step, or completes the tour from the last one. */
    method NextStep()
      requires Valid()
      modifies this
      ensures Valid() && isReady == old(isReady)
      ensures old(currentStep) < |Steps| - 1 ==>
                currentStep == old(currentStep) + 1 &&
                showOnboarding == old(showOnboarding) && completed == old(completed)
      ensures old(currentStep) == |Steps| - 1 ==>
                currentStep == old(currentStep) && completed && !showOnboarding
    {
      if currentStep < |Steps| - 1 {
        currentStep := currentStep + 1;
      } else {
        Complete();
      }
    }

    /** Goes back one step; nothing happens on the first. */
    method PrevStep()
      requires Valid()
      modifies this
      ensures Valid() && showOnboarding == old(showOnboarding) && completed == old(completed) && isReady == old(isReady)
      ensures currentStep == if old(currentStep) > 0 then old(currentStep) - 1 else 0
    {
      if currentStep > 0 {
        currentStep := currentStep - 1;
      }
    }

    /** `skipOnboarding` is completion. */
    method Skip()
      requires Valid()
      modifies this
      ensures Valid() && completed && !showOnboarding
      ensures currentStep == old(currentStep) && isReady == old(isReady)
    {
      Complete();
    }

    /** Clears the flag and shows the tour again from the first step. */
    method Reset()
      requires Valid()
      modifies this
      ensures Valid() && !completed && currentStep == 0 && showOnboarding && isReady == old(isReady)
    {
      completed := false;
      currentStep := 0;
      showOnboarding := true;
    }

    /** `onboardingSteps[currentStep]`, which always exists. */
    function CurrentStepData(): (s: TourStep)
      requires Valid()
      reads this
      ensures s in Steps
    {
      Steps[currentStep]
    }
  }
}
