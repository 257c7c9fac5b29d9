/** The model-training wizard's simulated progress bars. Each bar is a
    counter with a running flag; a timer tick applies the bar's updater
    while the timer is alive, and the timer is cleared in the same tick that
    clears the flag, so "timer alive" and "flag set" are one field here. */
module Training {

  /** Percentage points per tick of the upload and of the training bar. */
  const UploadStep: int := 5
  const TrainingStep: int := 1
  const Full: int := 100

  datatype Counter = Counter(progress: int, running: bool)

  /** Pressing the start button: progress 0, flag set, timer started. */
  function Start(): Counter {
    Counter(0, true)
  }

  /** The updater passed to the progress setter: a bar at or past 100 stays
      at 100 and stops its timer; otherwise it advances by `step`. */
  function Update(prev: int, step: int): (r: (int, bool))
    ensures prev >= Full ==> r == (Full, true)
    ensures prev < Full ==> r == (prev + step, false)
  {
    if prev >= Full then (Full, true) else (prev + step, false)
  }

  /** One timer tick; with no timer alive nothing happens. */
  function Tick(c: Counter, step: int): (r: Counter)
    ensures !c.running ==> r == c
    ensures c.running && c.progress >= Full ==> r == Counter(Full, false)
    ensures c.running && c.progress < Full ==> r == Counter(c.progress + step, true)
  {
    if !c.running then c
    else
      var (next, stop) := Update(c.progress, step);
      Counter(next, !stop)
  }

  /** `n` ticks in a row. */
  function Ticks(c: Counter, step: int, n: nat): Counter {
    if n == 0 then c else Tick(Ticks(c, step, n - 1), step)
  }

  /** The page's two bars advance by 5 and by 1. */
  predicate PageStep(step: int) {
    step == UploadStep || step == TrainingStep
  }

  /** What a bar keeps between ticks: within 0..100 and a multiple of its step. */
  predicate Valid(c: Counter, step: int) {
    PageStep(step) && 0 <= c.progress <= Full && c.progress % step == 0
  }

  /** A tick keeps the bar valid and never moves it backwards. */
  lemma TickPreserves(c: Counter, step: int)
    requires Valid(c, step)
    ensures Valid(Tick(c, step), step)
    ensures Tick(c, step).progress >= c.progress
  {
    if step == UploadStep && c.running && c.progress < Full {
      assert c.progress <= 95;
    }
  }

  /** Ticking only moves forward, over any number of ticks. */
  lemma {:induction false} TicksMonotone(c: Counter, step: int, n: nat)
    requires Valid(c, step)
    ensures Valid(Ticks(c, step, n), step)
    ensures Ticks(c, step, n).progress >= c.progress
  {
    if n > 0 {
      TicksMonotone(c, step, n - 1);
      TickPreserves(Ticks(c, step, n - 1), step);
    }
  }

  /** From a fresh start, `n` ticks put the bar at min(step·n, 100), and the
      flag is still set exactly for the first 100/step ticks. */
  lemma {:induction false} TicksFromStart(step: int, n: nat)
    requires PageStep(step)
    ensures Ticks(Start(), step, n).progress == if step * n <= Full then step * n else Full
    ensures Ticks(Start(), step, n).running <==> step * n <= Full
  {
    if n > 0 {
      TicksFromStart(step, n - 1);
    }
  }

  /** The upload bar reaches 100 after 20 ticks and stops on the 21st. */
  lemma UploadSchedule()
    ensures Ticks(Start(), UploadStep, 19) == Counter(95, true)
    ensures Ticks(Start(), UploadStep, 20) == Counter(Full, true)
    ensures Ticks(Start(), UploadStep, 21) == Counter(Full, false)
  {
    TicksFromStart(UploadStep, 19);
    TicksFromStart(UploadStep, 20);
    TicksFromStart(UploadStep, 21);
  }

  /** The training bar reaches 100 after 100 ticks and stops on the 101st. */
  lemma TrainingSchedule()
    ensures Ticks(Start(), TrainingStep, 99) == Counter(99, true)
    ensures Ticks(Start(), TrainingStep, 100) == Counter(Full, true)
    ensures Ticks(Start(), TrainingStep, 101) == Counter(Full, false)
  {
    TicksFromStart(TrainingStep, 99);
    TicksFromStart(TrainingStep, 100);
    TicksFromStart(TrainingStep, 101);
  }

  // ---------------------------------------------------------------------
  // The wizard page
  // ---------------------------------------------------------------------

  datatype Tab = Data | TrainingTab | Deployment

  datatype Wizard = Wizard(tab: Tab, upload: Counter, training: Counter)

  function InitialWizard(): Wizard {
    Wizard(Data, Counter(0, false), Counter(0, false))
  }

  /** A start button is disabled while its bar is running. */
  predicate StartEnabled(c: Counter) {
    !c.running
  }

  /** The progress block is shown while running or once progress is positive. */
  predicate ProgressShown(c: Counter) {
    c.running || c.progress > 0
  }

  /** "Training complete!" is shown at exactly 100. */
  predicate CompleteShown(w: Wizard) {
    w.training.progress == Full
  }

  /** "Next: Deployment" is enabled from 100 up. */
  predicate DeploymentEnabled(w: Wizard) {
    w.training.progress >= Full
  }

  datatype Event =
    | SelectTab(tab: Tab)
    | NextTraining
    | BackData
    | NextDeployment
    | BackTraining
    | StartUpload
    | StartTraining
    | UploadTimer
    | TrainingTimer

  function Next(w: Wizard, e: Event): (r: Wizard)
    ensures e.UploadTimer? ==> r == w.(upload := Tick(w.upload, UploadStep))
    ensures e.TrainingTimer? ==> r == w.(training := Tick(w.training, TrainingStep))
    ensures e.NextDeployment? && !DeploymentEnabled(w) ==> r == w
    ensures e.StartUpload? ==> r.upload == (if StartEnabled(w.upload) then Start() else w.upload)
    ensures e.StartTraining? ==> r.training == (if StartEnabled(w.training) then Start() else w.training)
  {
    match e
    case SelectTab(t) => w.(tab := t)
    case NextTraining => w.(tab := TrainingTab)
    case BackData => w.(tab := Data)
    case NextDeployment => if DeploymentEnabled(w) then w.(tab := Deployment) else w
    case BackTraining => w.(tab := TrainingTab)
    case StartUpload => if StartEnabled(w.upload) then w.(upload := Start()) else w
    case StartTraining => if StartEnabled(w.training) then w.(training := Start()) else w
    case UploadTimer => w.(upload := Tick(w.upload, UploadStep))
    case TrainingTimer => w.(training := Tick(w.training, TrainingStep))
  }

  predicate WizardValid(w: Wizard) {
    Valid(w.upload, UploadStep) && Valid(w.training, TrainingStep)
  }

  /** Every event keeps both bars valid and, apart from a restart, moving forward. */
  lemma NextPreservesValid(w: Wizard, e: Event)
    requires WizardValid(w)
    ensures WizardValid(Next(w, e))
    ensures !e.StartUpload? ==> Next(w, e).upload.progress >= w.upload.progress
    ensures !e.StartTraining? ==> Next(w, e).training.progress >= w.training.progress
  {
    TickPreserves(w.upload, UploadStep);
    TickPreserves(w.training, TrainingStep);
  }

  /** On a valid page the completion message and the enabled deployment
      button always go together. */
  lemma CompleteIffDeploymentEnabled(w: Wizard)
    requires WizardValid(w)
    ensures CompleteShown(w) <==> DeploymentEnabled(w)
  {
  }

  /** The deployment gate is on the button only: the tab strip reaches the
      deployment tab with no training at all. */
  lemma TabStripBypassesGate()
    ensures !DeploymentEnabled(InitialWizard())
    ensures Next(InitialWizard(), NextDeployment).tab == Data
    ensures Next(InitialWizard(), SelectTab(Deployment)).tab == Deployment
  {
  }

  /** The buttons' guards: a start button pressed while its bar runs is
      ignored, and the deployment tab is entered only through the tab
      strip or through an enabled "Next: Deployment". */
  lemma ButtonsGate(w: Wizard, e: Event)
    ensures e.StartUpload? && !StartEnabled(w.upload) ==> Next(w, e) == w
    ensures e.StartTraining? && !StartEnabled(w.training) ==> Next(w, e) == w
    ensures Next(w, e).tab == Deployment && w.tab != Deployment ==>
              e == SelectTab(Deployment) || (e.NextDeployment? && DeploymentEnabled(w))
    ensures e.NextDeployment? ==> (Next(w, e).tab == Deployment <==> DeploymentEnabled(w) || w.tab == Deployment)
  {
  }

  /** Once a bar's progress block has appeared it never disappears: a
      finished bar keeps showing 100. Before its first start it is hidden. */
  lemma ProgressStaysShown(w: Wizard, e: Event)
    requires WizardValid(w)
    ensures ProgressShown(w.upload) ==> ProgressShown(Next(w, e).upload)
    ensures ProgressShown(w.training) ==> ProgressShown(Next(w, e).training)
    ensures !ProgressShown(InitialWizard().upload) && !ProgressShown(InitialWizard().training)
  {
  }
}
