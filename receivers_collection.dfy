/**
 * ManagerRootsPop3ReceiversCollection: one bounce receiver per configured
 * manager root that gathers notifications, built from the root's POP3 settings.
 * A root whose settings are refused is logged and skipped.
 */
module ReceiversCollection {
  import opened Wrappers
  import opened Mailbox
  import opened ChilkatBounceInspection
  import opened Pop3BounceReceiver

  /** The POP3 part of one manager root's settings. */
  datatype ManagerRootSettings = ManagerRootSettings(
    gatherNotifications: bool,
    pop3Password: string,
    pop3Port: int,
    pop3Server: Option<string>,
    pop3Ssl: bool,
    pop3UserName: string)

  /** The settings a receiver is built from: copied fields, and TLS by exactly one of SSL or STARTTLS. */
  function MapSettings(root: ManagerRootSettings): (s: Pop3Settings)
    ensures s.password == root.pop3Password && s.port == root.pop3Port
    ensures s.server == root.pop3Server && s.userName == root.pop3UserName
    ensures s.useSsl == root.pop3Ssl
    ensures s.useSsl != s.startTls
  {
    Pop3Settings(
      password := root.pop3Password,
      port := root.pop3Port,
      server := root.pop3Server,
      useSsl := root.pop3Ssl,
      userName := root.pop3UserName,
      startTls := !root.pop3Ssl)
  }

  /** The checks CreateReceiver makes: the server is neither null nor empty, the port is positive. */
  function CheckSettings(settings: Pop3Settings): (r: Option<string>)
    ensures r.None? <==> settings.server.Some? && settings.server.value != "" && settings.port > 0
  {
    if settings.server.None? || settings.server.value == "" then Some("settings.Server")
    else if settings.port <= 0 then Some("settings.Port")
    else None
  }

  /** The settings of the receivers Receivers builds, in manager-root order. */
  function ExpectedSettings(roots: seq<ManagerRootSettings>): (r: seq<Pop3Settings>)
    ensures |r| <= |roots|
    ensures forall k :: 0 <= k < |r| ==> CheckSettings(r[k]).None?
  {
    if roots == [] then []
    else
      var root := roots[|roots| - 1];
      ExpectedSettings(roots[..|roots| - 1])
      + (if root.gatherNotifications && CheckSettings(MapSettings(root)).None? then [MapSettings(root)] else [])
  }

  /** How many enabled roots are refused (and logged). */
  function RejectedCount(roots: seq<ManagerRootSettings>): (n: nat)
    ensures n <= |roots|
  {
    if roots == [] then 0
    else
      var root := roots[|roots| - 1];
      RejectedCount(roots[..|roots| - 1])
      + (if root.gatherNotifications && CheckSettings(MapSettings(root)).Some? then 1 else 0)
  }

  /** How many roots gather notifications. */
  function EnabledCount(roots: seq<ManagerRootSettings>): (n: nat)
    ensures n <= |roots|
  {
    if roots == [] then 0
    else EnabledCount(roots[..|roots| - 1]) + (if roots[|roots| - 1].gatherNotifications then 1 else 0)
  }

  /** Every enabled root either yields a receiver or is logged: none is lost, none counted twice. */
  lemma {:induction false} EnabledRootsAccounted(roots: seq<ManagerRootSettings>)
    ensures |ExpectedSettings(roots)| + RejectedCount(roots) == EnabledCount(roots)
    ensures |ExpectedSettings(roots)| <= EnabledCount(roots)
  {
    if roots != [] {
      EnabledRootsAccounted(roots[..|roots| - 1]);
    }
  }

  /**
   * A settings record is produced iff some enabled root with acceptable
   * settings maps to it.
   */
  lemma {:induction false} ExpectedSettingsExact(roots: seq<ManagerRootSettings>)
    ensures forall s :: s in ExpectedSettings(roots) <==>
              exists i :: 0 <= i < |roots| && roots[i].gatherNotifications
                          && CheckSettings(MapSettings(roots[i])).None? && s == MapSettings(roots[i])
  {
    if roots != [] {
      var front := roots[..|roots| - 1];
      ExpectedSettingsExact(front);
      forall s | s in ExpectedSettings(roots)
        ensures exists i :: 0 <= i < |roots| && roots[i].gatherNotifications
                            && CheckSettings(MapSettings(roots[i])).None? && s == MapSettings(roots[i])
      {
        if s in ExpectedSettings(front) {
          var i :| 0 <= i < |front| && front[i].gatherNotifications
                   && CheckSettings(MapSettings(front[i])).None? && s == MapSettings(front[i]);
          assert roots[i] == front[i];
        } else {
          assert s == MapSettings(roots[|roots| - 1]);
        }
      }
      forall s, i | 0 <= i < |roots| && roots[i].gatherNotifications
                    && CheckSettings(MapSettings(roots[i])).None? && s == MapSettings(roots[i])
        ensures s in ExpectedSettings(roots)
      {
        if i < |front| {
          assert front[i] == roots[i];
        }
      }
    }
  }

  /** No error is logged iff every root that gathers notifications has acceptable settings. */
  lemma {:induction false} NoRejections(roots: seq<ManagerRootSettings>)
    ensures RejectedCount(roots) == 0 <==>
              forall i :: 0 <= i < |roots| && roots[i].gatherNotifications ==> CheckSettings(MapSettings(roots[i])).None?
  {
    if roots != [] {
      var front := roots[..|roots| - 1];
      NoRejections(front);
      assert forall i :: 0 <= i < |front| ==> front[i] == roots[i];
    }
  }

  /** A root that does not gather notifications contributes nothing. */
  lemma DisabledRootIgnored(roots: seq<ManagerRootSettings>, root: ManagerRootSettings)
    requires !root.gatherNotifications
    ensures ExpectedSettings(roots + [root]) == ExpectedSettings(roots)
    ensures RejectedCount(roots + [root]) == RejectedCount(roots)
  {
    assert (roots + [root])[..|roots|] == roots;
  }

  /** Three enabled roots, the second with port 0: two receivers, from the first and the third, and one logged error. */
  lemma SecondPortZeroExample(first: ManagerRootSettings, second: ManagerRootSettings, third: ManagerRootSettings)
    requires first.gatherNotifications && second.gatherNotifications && third.gatherNotifications
    requires CheckSettings(MapSettings(first)).None? && CheckSettings(MapSettings(third)).None?
    requires second.pop3Port == 0
    ensures ExpectedSettings([first, second, third]) == [MapSettings(first), MapSettings(third)]
    ensures RejectedCount([first, second, third]) == 1
  {
    assert [first, second, third][..2] == [first, second];
    assert [first, second][..1] == [first];
    assert [first][..0] == [];
    assert CheckSettings(MapSettings(second)).Some?;
    assert ExpectedSettings([first]) == [MapSettings(first)] && RejectedCount([first]) == 0;
    assert ExpectedSettings([first, second]) == [MapSettings(first)] && RejectedCount([first, second]) == 1;
  }

  class ManagerRootsPop3ReceiversCollection {
    const inspector: ChilkatBounceInspector
    const environmentId: EnvironmentId
    /** How many errors have been logged. */
    ghost var loggedErrors: nat

    constructor (inspector: ChilkatBounceInspector, environmentId: EnvironmentId)
      ensures this.inspector == inspector && this.environmentId == environmentId && loggedErrors == 0
    {
      this.inspector := inspector;
      this.environmentId := environmentId;
      loggedErrors := 0;
    }

    /** CreateReceiver: a receiver over these settings, or the argument exception its checks raise. */
    method CreateReceiver(settings: Pop3Settings) returns (r: Result<ChilkatPop3BounceReceiver, string>)
      ensures r.Failure? <==> CheckSettings(settings).Some?
      ensures r.Failure? ==> r.error == CheckSettings(settings).value
      ensures r.Success? ==> fresh(r.value) && r.value.settings == settings
                             && r.value.inspector == inspector && r.value.environmentId == environmentId
    {
      var refused := CheckSettings(settings);
      if refused.Some? {
        return Failure(refused.value);
      }
      var receiver := new ChilkatPop3BounceReceiver(settings, inspector, environmentId);
      r := Success(receiver);
    }

    /**
     * Receivers: a receiver for every manager root that gathers notifications
     * and whose settings pass CreateReceiver's checks, sharing this collection's
     * inspector and environment matcher; each refused root logs one error.
     */
    method Receivers(roots: seq<ManagerRootSettings>) returns (receivers: seq<ChilkatPop3BounceReceiver>)
      modifies this`loggedErrors
      ensures |receivers| == |ExpectedSettings(roots)|
      ensures forall i :: 0 <= i < |receivers| ==>
                && fresh(receivers[i])
                && receivers[i].settings == ExpectedSettings(roots)[i]
                && receivers[i].inspector == inspector
                && receivers[i].environmentId == environmentId
      ensures loggedErrors == old(loggedErrors) + RejectedCount(roots)
    {
      receivers := [];
      for k := 0 to |roots|
        invariant |receivers| == |ExpectedSettings(roots[..k])|
        invariant forall i :: 0 <= i < |receivers| ==>
                    && fresh(receivers[i])
                    && receivers[i].settings == ExpectedSettings(roots[..k])[i]
                    && receivers[i].inspector == inspector
                    && receivers[i].environmentId == environmentId
        invariant loggedErrors == old(loggedErrors) + RejectedCount(roots[..k])
      {
        var managerRoot := roots[k];
        assert roots[..k + 1][..k] == roots[..k];
        if managerRoot.gatherNotifications {
          var settings := MapSettings(managerRoot);
          var created := CreateReceiver(settings);
          match created
          case Success(receiver) =>
            receivers := receivers + [receiver];
          case Failure(_) =>
            loggedErrors := loggedErrors + 1;
        }
      }
      assert roots[..|roots|] == roots;
    }
  }
}
