/** The thread that handles successful logins: what the policy blocks, it blocks in the firewall. */
module SuccessThread {
  import opened Wrappers
  import opened FailBan
  import opened FailBanThread
  import opened IoContext
  import opened WorkstationPolicy

  /** One turn of the event loop: the address of a login is blocked exactly if the policy blocks the login. */
  method ProcessAuthSucceedEvent(config: WorkstationNameConfig, cfg: Config, l: Login, io: Context)
    returns (verdict: Verdict, ghost decision: Option<int>)
    modifies config, io
    ensures verdict == Decide(config.policy, old(config.bindTable), l)
    ensures config.bindTable == Bind(config.policy, old(config.bindTable), l)
    ensures decision.Some? <==> verdict.Blocked? && cfg.isAddress(l.address) && !WhiteAddress(cfg, l.address)
    ensures decision.Some? ==> DelayOk(cfg, decision.value - cfg.blockTime)
    ensures TaskCreated(old(io.View()), io.View(), l.address, decision, old(io.steady), io.steady)
  {
    verdict := config.ProcessAuthSucceedEvent(l);
    decision := None;
    if verdict == Blocked {
      decision := BlockRemoteAddressesWhenLoginSucceed(cfg, l.address, io);
    }
  }
}
