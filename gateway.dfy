/** `execute_script` (src/vpn_bot.py:959-1002): the command line handed to
    the lifecycle script `client.sh` and the result record made of its
    outcome.  Running the process is a foreign call; its outcome is a
    parameter. */
module Gateway {
  import opened Wrappers
  import opened Text

  /** The dict `execute_script` returns. */
  datatype ScriptResult = ScriptResult(returncode: int, stdout: string, stderr: string)

  /** What the shell reports: the exit status and raw output of a finished
      process, or the text of an exception raised while starting it. */
  datatype Outcome = Exited(code: int, out: string, err: string) | Raised(message: string)

  /** Options that never take a client name (reload and backup). */
  const NamelessOptions: seq<string> := ["8", "7"]

  /** Python truthiness of an optional string argument. */
  predicate Given(arg: Option<string>) {
    arg.Some? && arg.value != []
  }

  /** The command string: the script and the option, then the client name
      unless the option is 7 or 8 or no name is given, then the days for
      option 1 when given. */
  function Command(scriptPath: string, option: string, clientName: Option<string>, days: Option<string>): (cmd: string)
    ensures option in NamelessOptions || !Given(clientName) ==> cmd == scriptPath + " " + option
  {
    var base := scriptPath + " " + option;
    if option !in NamelessOptions && Given(clientName) then
      var withName := base + " " + clientName.value;
      if option == "1" && Given(days) then withName + " " + days.value else withName
    else base
  }

  /** The words the command consists of: the command split at spaces gives
      these when none of them contains a space. */
  function Arguments(scriptPath: string, option: string, clientName: Option<string>, days: Option<string>): seq<string> {
    [scriptPath, option]
    + (if option !in NamelessOptions && Given(clientName) then [clientName.value] else [])
    + (if option !in NamelessOptions && Given(clientName) && option == "1" && Given(days) then [days.value] else [])
  }

  /** Splitting the command at spaces gives back exactly the script, the
      option and the arguments that were meant to be passed. */
  lemma CommandWords(scriptPath: string, option: string, clientName: Option<string>, days: Option<string>)
    requires ' ' !in scriptPath && ' ' !in option
    requires clientName.Some? ==> ' ' !in clientName.value
    requires days.Some? ==> ' ' !in days.value
    ensures Split(Command(scriptPath, option, clientName, days), ' ') == Arguments(scriptPath, option, clientName, days)
  {
    var words := Arguments(scriptPath, option, clientName, days);
    assert Command(scriptPath, option, clientName, days) == Join(" ", words) by {
      if option !in NamelessOptions && Given(clientName) {
        var name := clientName.value;
        if option == "1" && Given(days) {
          assert words == [scriptPath, option, name, days.value];
          assert Join(" ", [name, days.value]) == name + " " + days.value;
          assert Join(" ", [option, name, days.value]) == option + " " + (name + " " + days.value);
        } else {
          assert words == [scriptPath, option, name];
          assert Join(" ", [option, name]) == option + " " + name;
        }
      } else {
        assert words == [scriptPath, option];
      }
    }
    SplitJoin(words, ' ');
  }

  /** `execute_script(option, client_name, days)` given whether the script
      exists and how running it ends. */
  function ExecuteScript(scriptPath: string, scriptExists: bool, option: string, clientName: Option<string>,
                         days: Option<string>, run: string -> Outcome): (r: ScriptResult)
    ensures !scriptExists ==> r.returncode == 1 && r.stdout == []
    ensures scriptExists ==> match run(Command(scriptPath, option, clientName, days))
                             case Exited(code, out, err) => r.returncode == code && r.stdout == Strip(out) && r.stderr == Strip(err)
                             case Raised(_) => r.returncode == 1 && r.stdout == []
    ensures Stripped(r.stdout)
  {
    if !scriptExists then
      ScriptResult(1, "", "❌ Файл " + scriptPath + " не найден! Убедитесь, что скрипт client.sh существует.")
    else
      match run(Command(scriptPath, option, clientName, days))
      case Exited(code, out, err) =>
        StripIsStripped(out);
        ScriptResult(code, Strip(out), Strip(err))
      case Raised(message) =>
        ScriptResult(1, "", "❌ Ошибка при выполнении скрипта: " + message)
  }
}
