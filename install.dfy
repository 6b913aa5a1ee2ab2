/** The installation descriptor (`Installation`, `Component`), the verifier's error kinds and
    results, and the descriptor loader's guard. */
module Install {
  import opened Wrappers
  import opened Kubectl

  /** One addressable cluster resource of an installation. */
  datatype Component = Component(
    name: string, namespace: string, kind: string, apiVersion: string, labels: string, alias: string)

  /** Go's zero value `Component{}`, returned alongside an error. */
  const ZeroComponent := Component("", "", "", "", "", "")

  /** The set of components under verification. */
  datatype Installation = Installation(verifyID: string, version: string, components: seq<Component>)

  /** The distinguishable kinds of error the verifier reports; `KubectlFailed` carries a
      collaborator's error through unchanged. */
  datatype Error =
    | FileNotProvided
    | LoadFailed(reason: string)
    | InstallationNil
    | KindRequired
    | LabelsRequired
    | ComponentNotFound
    | MultipleComponents
    | RunningPodNotFound
    | ConditionNotSupported(condition: string)
    | ActionNotSupported(action: string)
    | KubectlFailed(reason: string)

  /** A verifier method's `(yes, err)` result, with the runner calls it made, in order. */
  datatype Outcome = Outcome(yes: bool, err: Option<Error>, calls: seq<Call>)

  /** `KubeInstallVerify`: the loaded installation (a pointer that may be nil) and the runner. */
  datatype KubeInstallVerify = KubeInstallVerify(installation: Option<Installation>, kubectl: Kube)

  /** A collaborator's error, as the verifier passes it on. */
  function Lift(failure: Option<string>): (r: Option<Error>)
    ensures r.None? <==> failure.None?
  {
    match failure
    case None => None
    case Some(reason) => Some(KubectlFailed(reason))
  }

  /** What `load` produced, and whether it read the file. */
  datatype Loaded = Loaded(result: Result<Installation, Error>, fileRead: bool)

  /** `load`: an empty path is refused before any file is read; otherwise `readFile` stands for
      reading the file and parsing it. */
  function Load(file: string, readFile: string -> Result<Installation, string>): (r: Loaded)
    ensures r.fileRead <==> |file| > 0
    ensures r.result == Failure(FileNotProvided) <==> |file| == 0
    ensures |file| > 0 ==> (r.result.Success? <==> readFile(file).Success?)
    ensures r.result.Success? ==> r.result.value == readFile(file).value
  {
    if |file| == 0 then Loaded(Failure(FileNotProvided), false)
    else
      match readFile(file)
      case Success(installation) => Loaded(Success(installation), true)
      case Failure(reason) => Loaded(Failure(LoadFailed(reason)), true)
  }
}
