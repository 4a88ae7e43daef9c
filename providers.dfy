/** Ingest providers as the client sees them: the update schedule, the idle
    time after which the dashboard flags a provider, the feeding-service
    configuration and the content types the provider ingests. */
module Providers {
  import opened Common

  /** How often the provider is polled. */
  datatype UpdateSchedule = UpdateSchedule(minutes: int, seconds: int)

  /** How long a provider may go without new items. */
  datatype IdleTime = IdleTime(hours: int, minutes: int)

  /** `DEFAULT_SCHEDULE`. */
  const DefaultSchedule: UpdateSchedule := UpdateSchedule(5, 0)

  /** `DEFAULT_IDLE_TIME`: idle checking is off. */
  const DefaultIdleTime: IdleTime := IdleTime(0, 0)

  /** One key of a plain JavaScript object with string values; an object is
      its pairs in insertion order. */
  datatype Pair = Pair(key: string, value: string)

  /** The part of a feeding-service configuration the client touches:
      the stored field aliases (a list of `{fieldName: alias}` objects) and
      the RSS credentials. */
  datatype ProviderConfig = ProviderConfig(
    fieldAliases: Option<seq<seq<Pair>>>,
    authRequired: bool,
    username: Field<string>,
    password: Field<string>)

  /** An ingest provider record; `lastItemUpdate` is in minutes and
      `feedingService` names the feeding service by its `value`. */
  datatype Provider = Provider(
    id: Field<string>,
    updateSchedule: Option<UpdateSchedule>,
    idleTime: Option<IdleTime>,
    config: Option<ProviderConfig>,
    contentTypes: Option<seq<string>>,
    isClosed: bool,
    lastItemUpdate: Option<int>,
    sourceErrors: Option<seq<string>>,
    allErrors: Option<seq<string>>,
    feedingService: Field<string>)

  /** `{}`: what the form edits when it creates a provider. */
  const EmptyProvider: Provider := Provider(Absent, None, None, None, None, false, None, None, None, Absent)
}
