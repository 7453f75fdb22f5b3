/** The parts of the SockBase base class that BareSock relies on. SockBase.cs
    is not part of this model, so its constants and helpers are parameters:
    nothing here fixes the value of MTU or MTUSafe, the membership of the
    harmless-error set, the rule ValidateLength applies, or the wildcard
    address AnyAddress picks. */
module SockBase {
  import opened SockTypes

  datatype Config = Config(
    mtu: int,                          // largest datagram accepted as not truncated
    mtuSafe: int,                      // capacity requested for every receive buffer
    harmlessErrors: set<ErrorCode>,    // socket errors swallowed without a log line
    validLength: int -> bool,          // the lengths ValidateLength lets through
    anyAddress: Family -> Address      // the wildcard address of each family
  )

  predicate Harmless(cfg: Config, code: ErrorCode)
  {
    code in cfg.harmlessErrors
  }

  /** The catch clause shared by both Send overloads and Receive: a harmless
      code is swallowed without a trace; any other code is logged once and
      then rethrown. These are the effects of the clause. */
  function Caught(cfg: Config, code: ErrorCode): (r: Effects)
    ensures r.logged == (if Harmless(cfg, code) then [] else [code])
    ensures r.calls == [] && r.gets == [] && r.requested == [] && r.puts == []
  {
    if Harmless(cfg, code) then NoEffects else Log(code)
  }
}
