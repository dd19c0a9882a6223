// scripts/lib/dev-electron-launcher.model.ts and packages/shared/src/DevLauncher.ts: time budgets in
// milliseconds, and the exit codes the launcher interprets.
module LauncherModel {
  const GRACEFUL_STOP_MS: nat := 4000
  const APP_QUIT_GRACE_MS: nat := 500
  const FORCE_SETTLE_MS: nat := 500
  const CHILD_GRACE_MS: nat := 1200
  const RESTART_DEBOUNCE_MS: nat := 750
  const STOP_POLL_MS: nat := 200
  const SNAPSHOT_INTERVAL_MS: nat := 1500
  const MAX_SHUTDOWN_MS: nat := GRACEFUL_STOP_MS + FORCE_SETTLE_MS + CHILD_GRACE_MS

  const RESTART_EXIT_CODE := 75
  const FATAL_EXIT_CODE := 70
  const DUPLICATE_INSTANCE_EXIT_CODE := 69

  // The next poll of a `waitFor` loop.
  function NextPoll(now: nat, deadline: nat): (at: nat)
    requires now < deadline
    ensures now < at <= deadline && at <= now + STOP_POLL_MS
  {
    if deadline - now < STOP_POLL_MS then deadline else now + STOP_POLL_MS
  }

  // When a `waitFor` loop looks for the i-th time, counted from 0.
  function PollTime(began: nat, budget: nat, i: nat): nat {
    if i * STOP_POLL_MS < budget then began + i * STOP_POLL_MS else began + budget
  }

  lemma NextPollTime(began: nat, budget: nat, i: nat)
    requires PollTime(began, budget, i) < began + budget
    ensures NextPoll(PollTime(began, budget, i), began + budget) == PollTime(began, budget, i + 1)
  {
  }
}
