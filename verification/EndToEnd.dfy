/** Key life cycle and controller together: what was sealed with a served certificate reaches the cluster. */
module EndToEnd {
  import opened Types
  import opened Crypto
  import opened Sealing
  import opened SealingLaws
  import opened KeyStore
  import opened Registry
  import opened WorkQueue
  import Controller
  import Convergence
  import Durability
  import Reload

  /** The rings of the registry at all moments from `i` on at which it was running. */
  ghost function RingsSince(life: seq<Durability.System>, i: nat): iset<KeyRing> {
    iset j: nat | i <= j < |life| && life[j].running.Some? :: Ring(ByFingerprint(life[j].running.value))
  }

  /**
   * Seal a Secret with any certificate served at moment `i`; crash, restart and renew keys as often as you like, also
   * while the controller runs. It brings every plaintext item into the cluster, whichever later ring each of its
   * attempts finds: at rest, a deployed sealed secret that was not given up has them all in its Secret.
   */
  lemma ServedCertificatesReachTheCluster(
    keysCfg: Reload.Config, life: seq<Durability.System>, events: seq<Durability.Step>, i: nat,
    cert: Certificate, secret: Secret, ss: SealedSecret,
    cfg: Controller.Config, states: seq<Controller.World>, steps: seq<Controller.Step>, n: nat, k: ObjectKey)
    requires Sound(cfg.c) && keysCfg.c == cfg.c && Durability.IsRun(keysCfg, life, events) && i < |life|
    requires cert in life[i].served && SealedFrom(cfg.c, cert.publicKey, secret, ss)
    requires cfg.rings == RingsSince(life, i)
    requires Convergence.IsOrderlyRun(cfg, states, steps) && Controller.Initial(states[0]) && n < |states|
    requires Convergence.Quiet(states[n]) && k in states[n].sealed && k !in states[n].gaveUp
    requires DeployedAs(ss, states[n].sealed[k])
    ensures k in states[n].secrets && forall item :: item in Items(secret) ==>
              item in states[n].secrets[k].data && states[n].secrets[k].data[item] == Items(secret)[item]
  {
    forall keys | keys in cfg.rings ensures HoldsKeyFor(keys, cert.publicKey) {
      var j: nat :| i <= j < |life| && life[j].running.Some? && keys == Ring(ByFingerprint(life[j].running.value));
      Durability.ServedStay(keysCfg, life, events, i, j);
      Durability.InvAlways(keysCfg, life, events, j);
      Durability.RingHoldsServed(keysCfg, life[j], cert);
    }
    Convergence.SealedSecretsReachTheCluster(cfg, states, steps, n, k, cert.publicKey, secret, ss);
  }
}
