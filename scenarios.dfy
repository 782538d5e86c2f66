/**
 * What a caller of the store can rely on, shown on a freshly constructed
 * store using only the contracts of its methods.
 */
module Scenarios {
  import opened Schema
  import opened Commands
  import opened Ledger
  import opened Storage

  /** Nothing is stored before the first update; afterwards the stored row, with id 1, is read back. */
  method SettingsRoundTrip(input: BotSettingsInput) returns (before: Option<BotSettings>, stored: BotSettings, after: Option<BotSettings>)
    ensures before == None
    ensures stored.id == 1
    ensures stored.userId == input.userId && stored.token == input.token && stored.prefix == input.prefix
    ensures stored.name == input.name && stored.status == input.status
    ensures after == Some(stored)
  {
    var s := new MemStorage();
    before := s.GetBotSettings();
    stored := s.UpdateBotSettings(input);
    after := s.GetBotSettings();
  }

  /**
   * Ids come from the counter, not from the table: after the first command
   * is deleted, the next one still gets a new id, and the deleted id stays
   * unknown.
   */
  method IdsNeverReused(a: CommandInput, b: CommandInput)
    returns (first: Command, second: Command, lookup: Option<Command>, listed: seq<Command>)
    ensures first.id == 1 && second.id == 2
    ensures lookup == None
    ensures listed == [second]
  {
    var s := new MemStorage();
    first := s.CreateCommand(a);
    s.DeleteCommand(first.id);
    second := s.CreateCommand(b);
    lookup := s.GetCommand(first.id);
    assert s.commandOrder == [2];
    listed := s.GetCommands();
  }

  /**
   * An update of a stored command returns and stores the merge; an update
   * of an id that was deleted fails with "Command not found".
   */
  method UpdateThenDelete(input: CommandInput, patch: CommandPatch)
    returns (updated: Result<Command>, read: Option<Command>, missing: Result<Command>)
    ensures updated.Success? && updated.value.id == 1
    ensures updated.value == Merge(NewCommand(1, input), patch)
    ensures updated.value.enabled == Pick(patch.enabled, input.enabled != Some(false))
    ensures patch.name.None? ==> updated.value.name == input.name
    ensures read == Some(updated.value)
    ensures missing == Failure("Command not found")
  {
    var s := new MemStorage();
    var created := s.CreateCommand(input);
    updated := s.UpdateCommand(created.id, patch);
    read := s.GetCommand(created.id);
    s.DeleteCommand(created.id);
    missing := s.UpdateCommand(created.id, patch);
  }

  /**
   * The running average on concrete calls: 50 then 150 ms average to 100
   * over two calls; 10, 10 and 11 ms average to round(31 / 3) = 10 over
   * three.
   */
  method RecordingExamples() returns (ping: Option<Stats>, pong: Option<Stats>)
    ensures ping == Some(Stats(2, 100))
    ensures pong == Some(Stats(3, 10))
  {
    ping := RecordAll("ping", [50, 150]);
    pong := RecordAll("pong", [10, 10, 11]);
    ReplayFiftyThenHundredFifty();
    ReplayTenTenEleven();
  }

  /**
   * Recording a run of calls of one name on a fresh store leaves exactly
   * the statistics `Replay` gives: one call counted per call, and an
   * average within the range of the latencies.
   */
  method RecordAll(name: string, samples: seq<nat>) returns (stats: Option<Stats>)
    ensures stats == Replay(samples)
    ensures samples != [] ==> stats.Some? && stats.value.usageCount == |samples|
  {
    var s := new MemStorage();
    stats := None;
    for i := 0 to |samples|
      invariant s.Valid()
      invariant stats == StatsOf(s.analytics, name) == Replay(samples[..i])
    {
      var row := s.UpdateAnalytics(name, samples[i]);
      stats := Some(RowStats(row));
      assert samples[..i + 1][..i] == samples[..i];
    }
    assert samples[..|samples|] == samples;
    ReplayCount(samples);
  }
}
