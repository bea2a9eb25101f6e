/**
 * The remote access plugin (modules/remote_access/module.py): the VNC
 * installation checklist, the VNC server settings, simulated connection
 * tests kept in a connection history, the Teams checklist, and the check
 * behind each of the module's tasks.  Dialogs, colours and timers are not
 * modelled; a task the code marks through its task widgets is returned.
 */
module RemoteAccess {
  import opened Common

  /** The standard VNC password the configuration must use. */
  const VncPassword := "ae746"

  const InstallSteps: set<string> := {"download", "admin", "server", "service", "firewall"}
  const TeamsSteps: set<string> :=
    {"teams_installed", "camera_configured", "microphone_configured", "screen_sharing_tested", "remote_control_enabled"}

  /** The settings `apply_vnc_config` stores. */
  datatype VncConfig = VncConfig(password: string, viewPassword: string, port: int, display: string, loopback: bool,
                                 allInterfaces: bool)

  /** A connection history row; `time` is the clock reading. */
  datatype HistoryEntry = HistoryEntry(time: int, kind: string, ip: string, status: string)

  const VncTest := "VNC Test"

  /** `all(cb.isChecked() for cb in checklist.values())`. */
  predicate AllChecked(checklist: map<string, bool>)
  {
    forall step :: step in checklist ==> checklist[step]
  }

  /** A successful VNC test of localhost (`local`) or of another address. */
  predicate TestSucceeded(history: seq<HistoryEntry>, local: bool)
  {
    exists h :: h in history && h.kind == VncTest && (h.ip == "localhost") == local && h.status == "Success"
  }

  /** `validate_task` over the checklists, the stored settings (None while
      nothing is applied) and the history. */
  function Validates(install: map<string, bool>, teams: map<string, bool>, config: Option<VncConfig>,
                     history: seq<HistoryEntry>, taskId: string): bool
  {
    if taskId == "install_vnc_server" then AllChecked(install)
    else if taskId == "configure_vnc_password" then config.Some? && config.value.password == VncPassword
    else if taskId == "network_configuration" then config.Some?
    else if taskId == "test_local_connection" then TestSucceeded(history, true)
    else if taskId == "remote_connection_test" then TestSucceeded(history, false)
    else if taskId == "teams_configuration" then AllChecked(teams)
    else true
  }

  /** The task a connection test result marks. */
  function MarkedByTest(ip: string, success: bool): (r: Option<string>)
  {
    if success && ip == "localhost" then Some("test_local_connection")
    else if success then Some("remote_connection_test")
    else None
  }

  /** The task a test result marks passes once its entry is in the history. */
  lemma TestResultValidates(install: map<string, bool>, teams: map<string, bool>, config: Option<VncConfig>,
                            history: seq<HistoryEntry>, time: int, ip: string)
    ensures var task := MarkedByTest(ip, true).value;
      Validates(install, teams, config, history + [HistoryEntry(time, VncTest, ip, "Success")], task)
  {
    assert HistoryEntry(time, VncTest, ip, "Success") in history + [HistoryEntry(time, VncTest, ip, "Success")];
  }

  /** A failed test or a Teams test leaves every check as it was. */
  lemma OtherEntriesChangeNothing(install: map<string, bool>, teams: map<string, bool>, config: Option<VncConfig>,
                                  history: seq<HistoryEntry>, entry: HistoryEntry, taskId: string)
    requires entry.kind != VncTest || entry.status != "Success"
    ensures Validates(install, teams, config, history + [entry], taskId) == Validates(install, teams, config, history, taskId)
  {
    forall local: bool ensures TestSucceeded(history + [entry], local) == TestSucceeded(history, local) {
      if TestSucceeded(history + [entry], local) {
        var h :| h in history + [entry] && h.kind == VncTest && (h.ip == "localhost") == local && h.status == "Success";
        assert h in history;
      }
      if TestSucceeded(history, local) {
        var h :| h in history && h.kind == VncTest && (h.ip == "localhost") == local && h.status == "Success";
        assert h in history + [entry];
      }
    }
  }

  /** Settings with another password still pass the network configuration
      check, because they are stored before the password is checked, but
      never the password check. */
  lemma StoredSettingsCount(install: map<string, bool>, teams: map<string, bool>, config: VncConfig,
                            history: seq<HistoryEntry>)
    requires config.password != VncPassword
    ensures Validates(install, teams, Some(config), history, "network_configuration")
    ensures !Validates(install, teams, Some(config), history, "configure_vnc_password")
  {
  }

  /** Emptying the history undoes both connection checks. */
  lemma ClearedHistoryFails(install: map<string, bool>, teams: map<string, bool>, config: Option<VncConfig>)
    ensures !Validates(install, teams, config, [], "test_local_connection")
    ensures !Validates(install, teams, config, [], "remote_connection_test")
  {
  }

  /** The checklist with every step ticked. */
  function Ticked(checklist: map<string, bool>): (r: map<string, bool>)
    ensures r.Keys == checklist.Keys && AllChecked(r)
  {
    map step | step in checklist :: true
  }

  class RemoteAccessModule {
    var vncConfig: Option<VncConfig>
    var connectionHistory: seq<HistoryEntry>
    var installChecklist: map<string, bool>
    var teamsChecklist: map<string, bool>

    ghost predicate Valid()
      reads this
    {
      installChecklist.Keys == InstallSteps && teamsChecklist.Keys == TeamsSteps
    }

    constructor ()
      ensures Valid()
      ensures vncConfig.None? && connectionHistory == []
      ensures forall step :: step in InstallSteps ==> !installChecklist[step]
      ensures forall step :: step in TeamsSteps ==> !teamsChecklist[step]
    {
      vncConfig := None;
      connectionHistory := [];
      installChecklist := map step | step in InstallSteps :: false;
      teamsChecklist := map step | step in TeamsSteps :: false;
    }

    /** Ticking or clearing an installation step; `update_install_status`
        marks the installation task once every step is ticked.  A call
        stands for one `stateChanged` signal, which Qt emits only when the
        box changes, so `checked` differs from the stored value whenever the
        source reaches this handler. */
    method SetInstallStep(step: string, checked: bool) returns (marked: Option<string>)
      requires Valid() && step in InstallSteps
      modifies this
      ensures Valid()
      ensures installChecklist == old(installChecklist)[step := checked]
      ensures marked.Some? <==> AllChecked(installChecklist)
      ensures marked.Some? ==> marked.value == "install_vnc_server"
      ensures vncConfig == old(vncConfig) && connectionHistory == old(connectionHistory)
      ensures teamsChecklist == old(teamsChecklist)
    {
      installChecklist := installChecklist[step := checked];
      marked := if AllChecked(installChecklist) then Some("install_vnc_server") else None;
    }

    /** `installation_complete`: every installation step ticked.  Only a
        box that changes fires `update_install_status`, so the installation
        task is marked when some step was still open. */
    method InstallationComplete() returns (marked: Option<string>)
      requires Valid()
      modifies this
      ensures Valid()
      ensures installChecklist == Ticked(old(installChecklist))
      ensures marked == if AllChecked(old(installChecklist)) then None else Some("install_vnc_server")
      ensures vncConfig == old(vncConfig) && connectionHistory == old(connectionHistory)
      ensures teamsChecklist == old(teamsChecklist)
    {
      marked := if AllChecked(installChecklist) then None else Some("install_vnc_server");
      installChecklist := Ticked(installChecklist);
    }

    /** Ticking or clearing a Teams step; nothing is checked until the
        Teams test is run. */
    method SetTeamsStep(step: string, checked: bool)
      requires Valid() && step in TeamsSteps
      modifies this
      ensures Valid()
      ensures teamsChecklist == old(teamsChecklist)[step := checked]
      ensures vncConfig == old(vncConfig) && connectionHistory == old(connectionHistory)
      ensures installChecklist == old(installChecklist)
    {
      teamsChecklist := teamsChecklist[step := checked];
    }

    /** `apply_vnc_config`: the settings are stored whatever the password;
        both configuration tasks are marked only for the standard one. */
    method ApplyVncConfig(config: VncConfig) returns (marked: seq<string>)
      modifies this
      ensures vncConfig == Some(config)
      ensures marked == (if config.password == VncPassword then ["configure_vnc_password", "network_configuration"] else [])
      ensures connectionHistory == old(connectionHistory)
      ensures installChecklist == old(installChecklist) && teamsChecklist == old(teamsChecklist)
    {
      vncConfig := Some(config);
      marked := [];
      if config.password == VncPassword {
        marked := ["configure_vnc_password", "network_configuration"];
      }
    }

    /** `add_connection_history`: exactly one row appended. */
    method AddConnectionHistory(ip: string, kind: string, status: string, time: int)
      modifies this
      ensures connectionHistory == old(connectionHistory) + [HistoryEntry(time, kind, ip, status)]
      ensures vncConfig == old(vncConfig)
      ensures installChecklist == old(installChecklist) && teamsChecklist == old(teamsChecklist)
    {
      connectionHistory := connectionHistory + [HistoryEntry(time, kind, ip, status)];
    }

    /** `clear_connection_history`. */
    method ClearConnectionHistory()
      modifies this
      ensures connectionHistory == []
      ensures vncConfig == old(vncConfig)
      ensures installChecklist == old(installChecklist) && teamsChecklist == old(teamsChecklist)
    {
      connectionHistory := [];
    }

    /** `connection_test_result`: one `VNC Test` row whose status is
        `Success` exactly when the test succeeded, and the local or the
        remote test task marked on success. */
    method ConnectionTestResult(ip: string, port: int, success: bool, time: int) returns (marked: Option<string>)
      modifies this
      ensures connectionHistory
        == old(connectionHistory) + [HistoryEntry(time, VncTest, ip, if success then "Success" else "Failed")]
      ensures marked == MarkedByTest(ip, success)
      ensures vncConfig == old(vncConfig)
      ensures installChecklist == old(installChecklist) && teamsChecklist == old(teamsChecklist)
    {
      var status := if success then "Success" else "Failed";
      AddConnectionHistory(ip, VncTest, status, time);
      marked := MarkedByTest(ip, success);
    }

    /** `test_local_connection` followed by its simulated result, which
        always succeeds. */
    method TestLocalConnection(port: int, time: int) returns (marked: Option<string>)
      modifies this
      ensures connectionHistory == old(connectionHistory) + [HistoryEntry(time, VncTest, "localhost", "Success")]
      ensures marked == Some("test_local_connection")
      ensures vncConfig == old(vncConfig)
      ensures installChecklist == old(installChecklist) && teamsChecklist == old(teamsChecklist)
    {
      marked := ConnectionTestResult("localhost", port, true, time);
    }

    /** `test_remote_connection` followed by its simulated result, which
        always succeeds; a blank address does nothing. */
    method TestRemoteConnection(input: string, port: int, time: int) returns (marked: Option<string>)
      modifies this
      ensures Strip(input) == "" ==> connectionHistory == old(connectionHistory) && marked.None?
      ensures Strip(input) != "" ==>
        connectionHistory == old(connectionHistory) + [HistoryEntry(time, VncTest, Strip(input), "Success")]
        && marked == MarkedByTest(Strip(input), true)
      ensures vncConfig == old(vncConfig)
      ensures installChecklist == old(installChecklist) && teamsChecklist == old(teamsChecklist)
    {
      var ip := Strip(input);
      marked := None;
      if ip != "" {
        marked := ConnectionTestResult(ip, port, true, time);
      }
    }

    /** `test_teams_config`: with every Teams step ticked the Teams task is
        marked.  Marking goes through the missing task widgets and raises,
        so the `Configuration Test` row the source writes after it is never
        added: the history is unchanged either way. */
    method TestTeamsConfig() returns (marked: Option<string>)
      modifies this
      ensures marked.Some? <==> AllChecked(teamsChecklist)
      ensures marked.Some? ==> marked.value == "teams_configuration"
      ensures connectionHistory == old(connectionHistory)
      ensures vncConfig == old(vncConfig)
      ensures installChecklist == old(installChecklist) && teamsChecklist == old(teamsChecklist)
    {
      marked := None;
      if AllChecked(teamsChecklist) {
        marked := Some("teams_configuration");
      }
    }
  }
}
