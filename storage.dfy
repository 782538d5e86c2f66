/**
 * The in-memory store: one bot-settings slot, a command table and an
 * analytics ledger, each table a map from id to row together with the map's
 * key order, and one id counter per table.
 */
module Storage {
  import opened Schema
  import opened KeyOrder
  import opened Commands
  import opened Ledger
  import opened Rounding

  /** The message `updateCommand` throws for an id with no command. */
  const CommandNotFound: string := "Command not found"

  class MemStorage {
    var botSettings: Option<BotSettings>
    var commands: map<nat, Command>
    var commandOrder: seq<nat>
    var analytics: map<nat, Analytics>
    var analyticsOrder: seq<nat>
    var currentCommandId: nat
    var currentAnalyticsId: nat

    /**
     * The store's invariant: the settings row, if any, has id 1, and both
     * tables are well formed.
     */
    ghost predicate Valid()
      reads this
    {
      && (botSettings.Some? ==> botSettings.value.id == 1)
      && CommandsValid()
      && AnalyticsValid()
    }

    /**
     * Each command is stored under its own id, which is positive and below
     * the counter, so the counter never hands out an id in use or used
     * before; the key order is ascending.
     */
    ghost predicate CommandsValid()
      reads this`commands, this`commandOrder, this`currentCommandId
    {
      && currentCommandId >= 1
      && IsKeyOrder(commandOrder, commands)
      && (forall id :: id in commands ==> commands[id].id == id && 1 <= id < currentCommandId)
    }

    /** The analytics table satisfies the ledger's invariant. */
    ghost predicate AnalyticsValid()
      reads this`analytics, this`analyticsOrder, this`currentAnalyticsId
    {
      WellFormed(analytics, analyticsOrder, currentAnalyticsId)
    }

    constructor ()
      ensures Valid()
      ensures botSettings == None
      ensures commands == map[] && commandOrder == [] && currentCommandId == 1
      ensures analytics == map[] && analyticsOrder == [] && currentAnalyticsId == 1
    {
      botSettings := None;
      commands, commandOrder := map[], [];
      analytics, analyticsOrder := map[], [];
      currentCommandId, currentAnalyticsId := 1, 1;
    }

    method GetBotSettings() returns (s: Option<BotSettings>)
      requires Valid()
      ensures s == botSettings
      ensures s.Some? ==> s.value.id == 1
    {
      s := botSettings;
    }

    /** Stores `input` as the one settings row, under id 1, replacing any earlier one. */
    method UpdateBotSettings(input: BotSettingsInput) returns (s: BotSettings)
      requires Valid()
      modifies this
      ensures Valid()
      ensures s == BotSettings(1, input.userId, input.token, input.prefix, input.name, input.status)
      ensures botSettings == Some(s)
      ensures commands == old(commands) && commandOrder == old(commandOrder)
      ensures currentCommandId == old(currentCommandId)
      ensures analytics == old(analytics) && analyticsOrder == old(analyticsOrder)
      ensures currentAnalyticsId == old(currentAnalyticsId)
    {
      s := BotSettings(1, input.userId, input.token, input.prefix, input.name, input.status);
      botSettings := Some(s);
    }

    /** Every command, in ascending order of id. */
    method GetCommands() returns (cs: seq<Command>)
      requires Valid()
      ensures |cs| == |commandOrder| == |commands|
      ensures forall i :: 0 <= i < |cs| ==> cs[i] == commands[commandOrder[i]]
      ensures forall c :: c in cs <==> c in commands.Values
      ensures forall i, j :: 0 <= i < j < |cs| ==> cs[i].id < cs[j].id
    {
      cs := Values(commandOrder, commands);
      KeyOrderSize(commandOrder, commands);
      ListingHoldsValues(commandOrder, commands, cs);
    }

    method GetCommand(id: int) returns (c: Option<Command>)
      requires Valid()
      ensures c.Some? <==> id in commands
      ensures c.Some? ==> c.value == commands[id] && c.value.id == id
    {
      if id in commands {
        c := Some(commands[id]);
      } else {
        c := None;
      }
    }

    /**
     * Stores a new command under the current counter value and advances the
     * counter; only the new key is added.
     */
    method CreateCommand(input: CommandInput) returns (c: Command)
      requires Valid()
      modifies this
      ensures Valid()
      ensures c == NewCommand(old(currentCommandId), input)
      ensures c.id !in old(commands)
      ensures currentCommandId == old(currentCommandId) + 1
      ensures commands == old(commands)[c.id := c]
      ensures commandOrder == old(commandOrder) + [c.id]
      ensures botSettings == old(botSettings)
      ensures analytics == old(analytics) && analyticsOrder == old(analyticsOrder)
      ensures currentAnalyticsId == old(currentAnalyticsId)
    {
      var id := currentCommandId;
      currentCommandId := currentCommandId + 1;
      c := NewCommand(id, input);
      AppendLarger(commandOrder, id);
      commands := commands[id := c];
      commandOrder := commandOrder + [id];
    }

    /**
     * Merges `patch` into the command stored under `id`, or fails with
     * "Command not found" and changes nothing when there is none.
     */
    method UpdateCommand(id: int, patch: CommandPatch) returns (r: Result<Command>)
      requires Valid()
      modifies this
      ensures Valid()
      ensures id !in old(commands) ==> r == Failure(CommandNotFound) && commands == old(commands)
      ensures id in old(commands) ==>
                r == Success(Merge(old(commands)[id], patch)) && commands == old(commands)[id := r.value]
      ensures commandOrder == old(commandOrder) && currentCommandId == old(currentCommandId)
      ensures botSettings == old(botSettings)
      ensures analytics == old(analytics) && analyticsOrder == old(analyticsOrder)
      ensures currentAnalyticsId == old(currentAnalyticsId)
    {
      var existing := GetCommand(id);
      match existing
      case None =>
        r := Failure(CommandNotFound);
      case Some(e) =>
        var updated := Merge(e, patch);
        commands := commands[id := updated];
        r := Success(updated);
    }

    /** Removes the command stored under `id`; an id with no command is not an error. */
    method DeleteCommand(id: int)
      requires Valid()
      modifies this
      ensures Valid()
      ensures commands == old(commands) - {id}
      ensures commandOrder == Remove(old(commandOrder), id)
      ensures id !in old(commands) ==> commands == old(commands) && commandOrder == old(commandOrder)
      ensures currentCommandId == old(currentCommandId)
      ensures botSettings == old(botSettings)
      ensures analytics == old(analytics) && analyticsOrder == old(analyticsOrder)
      ensures currentAnalyticsId == old(currentAnalyticsId)
    {
      commands := commands - {id};
      commandOrder := Remove(commandOrder, id);
    }

    /** Every analytics row, in ascending order of id. */
    method GetAnalytics() returns (rows: seq<Analytics>)
      requires Valid()
      ensures |rows| == |analyticsOrder| == |analytics|
      ensures forall i :: 0 <= i < |rows| ==> rows[i] == analytics[analyticsOrder[i]]
      ensures forall a :: a in rows <==> a in analytics.Values
      ensures forall i, j :: 0 <= i < j < |rows| ==> rows[i].id < rows[j].id
      ensures forall i, j :: 0 <= i < j < |rows| ==> rows[i].commandName != rows[j].commandName
    {
      rows := Values(analyticsOrder, analytics);
      KeyOrderSize(analyticsOrder, analytics);
      ListingHoldsValues(analyticsOrder, analytics, rows);
    }

    /** The first row, in key order, for `name`: `.find(a => a.commandName === name)`. */
    method FindAnalytics(name: string) returns (found: Option<Analytics>)
      requires Valid()
      ensures found.Some? <==> HasRow(analytics, name)
      ensures found.Some? ==>
                found.value.id in analytics && analytics[found.value.id] == found.value
                && found.value.commandName == name
    {
      var i := 0;
      while i < |analyticsOrder|
        invariant 0 <= i <= |analyticsOrder|
        invariant forall k :: 0 <= k < i ==> analytics[analyticsOrder[k]].commandName != name
      {
        var row := analytics[analyticsOrder[i]];
        if row.commandName == name {
          return Some(row);
        }
        i := i + 1;
      }
      found := None;
      assert !HasRow(analytics, name) by {
        forall id | id in analytics
          ensures analytics[id].commandName != name
        {
          var k :| 0 <= k < |analyticsOrder| && analyticsOrder[k] == id;
        }
      }
    }

    /**
     * Records one call of `commandName` taking `responseTime` milliseconds:
     * the name's row, if it has one, gets one more call and a new running
     * average, keeping its id; otherwise a new row with the next analytics id
     * starts at one call with `responseTime` as its average. No other row
     * changes.
     */
    method UpdateAnalytics(commandName: string, responseTime: nat) returns (row: Analytics)
      requires Valid()
      modifies this
      ensures Valid()
      ensures row.commandName == commandName && row.id in analytics && analytics[row.id] == row
      ensures RowStats(row) == Record(old(StatsOf(analytics, commandName)), responseTime)
      ensures StatsOf(analytics, commandName) == Some(RowStats(row))
      ensures forall name :: name != commandName ==> StatsOf(analytics, name) == old(StatsOf(analytics, name))
      ensures analytics == old(analytics)[row.id := row]
      ensures old(HasRow(analytics, commandName)) ==>
                row.id in old(analytics) && old(analytics)[row.id].commandName == commandName
                && RowStats(row) == Record(Some(RowStats(old(analytics)[row.id])), responseTime)
                && analyticsOrder == old(analyticsOrder) && currentAnalyticsId == old(currentAnalyticsId)
      ensures !old(HasRow(analytics, commandName)) ==>
                row.id == old(currentAnalyticsId) && row.id !in old(analytics)
                && analyticsOrder == old(analyticsOrder) + [row.id]
                && currentAnalyticsId == old(currentAnalyticsId) + 1
      ensures botSettings == old(botSettings)
      ensures commands == old(commands) && commandOrder == old(commandOrder)
      ensures currentCommandId == old(currentCommandId)
    {
      ghost var before := analytics;
      var existing := FindAnalytics(commandName);
      match existing {
      case Some(e) =>
        var usageCount := e.usageCount + 1;
        var avgResponseTime := RunningAverage(e.avgResponseTime, e.usageCount, responseTime);
        row := e.(usageCount := usageCount, avgResponseTime := avgResponseTime);
        RewriteRow(before, analyticsOrder, currentAnalyticsId, row);
        analytics := analytics[e.id := row];
      case None =>
        var id := currentAnalyticsId;
        currentAnalyticsId := currentAnalyticsId + 1;
        row := Analytics(id, commandName, 1, responseTime);
        AddRow(before, analyticsOrder, id, row);
        analytics := analytics[id := row];
        analyticsOrder := analyticsOrder + [id];
      }
    }
  }
}
