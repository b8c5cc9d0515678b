/** The log entry every consumer works on. */
module Model {

  type Level = nat

  const DEBUG: Level := 0
  const INFO: Level := 1
  const LOG: Level := 2
  const WARN: Level := 3
  const ERROR: Level := 4
  const SEVERE: Level := 5
  const PANIC: Level := 6

  /** Nanoseconds. */
  type Time = int

  datatype Entry = Entry(
    tenant: string,
    ts: Time,
    app: string,
    src: string,
    lvl: Level,
    pid: string,
    msg: string,
    fields: map<string, string>)
}
