/**
 * `ActionDef`: a named action definition built fluently. Schemas are opaque
 * here and stand as ids; the queue settings are a partial record.
 */
module ActionDefs {
  import opened Wrappers

  datatype BackoffKind = Exponential | Fixed

  datatype Backoff = Backoff(kind: BackoffKind, delay: int)

  /** `QJobRetrySettings` */
  datatype JobRetry = JobRetry(attempts: int, backoff: Option<Backoff>)

  /** `Partial<QSettings>`: every field may be missing. `cron` is a key of the cron table. */
  datatype Settings = Settings(
    validateInput: Option<bool>,
    validateOutput: Option<bool>,
    timeout: Option<int>,
    concurrency: Option<int>,
    cron: Option<string>,
    jobRetry: Option<JobRetry>)

  /** `_settings?.cron` is truthy: settings exist and name a non-empty cron key. */
  predicate HasCron(s: Option<Settings>) {
    s.Some? && s.value.cron.Some? && s.value.cron.value != ""
  }

  /** The `CRON` table from schedule names to cron patterns. */
  const CronTable: map<string, string> := map[
    "every_minute" := "* * * * *",
    "every_five_minutes" := "*/5 * * * *",
    "every_ten_minutes" := "*/10 * * * *",
    "every_fifteen_minutes" := "*/15 * * * *",
    "every_thirty_minutes" := "*/30 * * * *",
    "every_hour" := "0 * * * *",
    "every_two_hours" := "0 */2 * * *",
    "every_three_hours" := "0 */3 * * *",
    "every_six_hours" := "0 */6 * * *",
    "every_twelve_hours" := "0 */12 * * *",
    "every_day" := "0 0 * * *",
    "every_day_at_midnight" := "0 0 * * *",
    "every_day_at_noon" := "0 12 * * *",
    "every_day_at_6am" := "0 6 * * *",
    "every_day_at_7am" := "0 7 * * *",
    "every_day_at_8am" := "0 8 * * *",
    "every_monday" := "0 0 * * 1",
    "every_tuesday" := "0 0 * * 2",
    "every_wednesday" := "0 0 * * 3",
    "every_thursday" := "0 0 * * 4",
    "every_friday" := "0 0 * * 5",
    "every_saturday" := "0 0 * * 6",
    "every_sunday" := "0 0 * * 0",
    "every_week" := "0 0 * * 0",
    "every_month" := "0 0 1 * *",
    "every_quarter" := "0 0 1 */3 *",
    "every_six_months" := "0 0 1 */6 *",
    "every_year" := "0 0 1 1 *",
    "every_weekday" := "0 0 * * 1-5",
    "every_weekend" := "0 0 * * 6,0"
  ]

  class ActionDef {
    /** Fixed at construction. */
    const name: string
    var input: Option<nat>
    var output: Option<nat>
    var isAsync: bool
    var settings: Option<Settings>

    /** `new ActionDef(name)`: no schemas, not async, no settings. */
    constructor(name: string)
      ensures this.name == name
      ensures input.None? && output.None? && !isAsync && settings.None?
    {
      this.name := name;
      input := None;
      output := None;
      isAsync := false;
      settings := None;
    }

    /** `input(schema)`: sets the input schema only and returns the same object. */
    method Input(schema: nat) returns (self: ActionDef)
      modifies this
      ensures self == this && input == Some(schema)
      ensures output == old(output) && isAsync == old(isAsync) && settings == old(settings)
    {
      input := Some(schema);
      self := this;
    }

    /** `output(schema)`: sets the output schema only and returns the same object. */
    method Output(schema: nat) returns (self: ActionDef)
      modifies this
      ensures self == this && output == Some(schema)
      ensures input == old(input) && isAsync == old(isAsync) && settings == old(settings)
    {
      output := Some(schema);
      self := this;
    }

    /** `async()`: marks the definition asynchronous. */
    method Async() returns (self: ActionDef)
      modifies this
      ensures self == this && isAsync
      ensures input == old(input) && output == old(output) && settings == old(settings)
    {
      isAsync := true;
      self := this;
    }

    /** `settings(s)`: replaces the whole settings record; earlier settings are not merged in. */
    method SetSettings(s: Settings) returns (self: ActionDef)
      modifies this
      ensures self == this && settings == Some(s)
      ensures input == old(input) && output == old(output) && isAsync == old(isAsync)
    {
      settings := Some(s);
      self := this;
    }
  }
}
