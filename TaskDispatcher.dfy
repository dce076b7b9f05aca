/**
 * The task launcher of the worker (worker/src/ecs/inex.ts): `RunTask(outputPath,
 * videoKey)` builds an ECS RunTask request for the transcoder container and sends it.
 *
 * The ECS client is a class recording the requests sent to it; the response of the
 * service is a parameter.
 */
module TaskDispatcher {
  import opened Wrappers

  /** The variables read when the module loads; `None` when unset. */
  datatype DispatcherEnv = DispatcherEnv(regionTask: Option<string>, accessKeyId: Option<string>,
                                         secretAccessKey: Option<string>,
                                         taskDefinitionArn: Option<string>, clusterArn: Option<string>)

  /** What the client is built with; the task definition and the cluster may be unset. */
  datatype DispatcherConfig = DispatcherConfig(region: string, taskDefinition: Option<string>, cluster: Option<string>)

  datatype ConfigError = MissingCredentials

  predicate Present(v: Option<string>) {
    v.Some? && v.value != ""
  }

  /** The load-time check: region and both keys set and non-empty; the ARNs are not checked. */
  function LoadDispatcherConfig(env: DispatcherEnv): (r: Result<DispatcherConfig, ConfigError>)
    ensures r.Ok? <==> Present(env.regionTask) && Present(env.accessKeyId) && Present(env.secretAccessKey)
    ensures r.Ok? ==> r.value.taskDefinition == env.taskDefinitionArn && r.value.cluster == env.clusterArn
  {
    if Present(env.regionTask) && Present(env.accessKeyId) && Present(env.secretAccessKey)
    then Ok(DispatcherConfig(env.regionTask.value, env.taskDefinitionArn, env.clusterArn))
    else Err(MissingCredentials)
  }

  datatype EnvVar = EnvVar(name: string, value: string)

  datatype ContainerOverride = ContainerOverride(name: string, environment: seq<EnvVar>)

  datatype NetworkConfig = NetworkConfig(assignPublicIp: string, subnets: seq<string>, securityGroups: seq<string>)

  datatype RunTaskRequest = RunTaskRequest(
    taskDefinition: Option<string>,
    cluster: Option<string>,
    launchType: string,
    network: NetworkConfig,
    overrides: seq<ContainerOverride>)

  const ContainerName: string := "videoTranscoder"
  const TaskRegion: string := "eu-north-1"
  const Subnets: seq<string> := ["subnet-0ea194a7d2c1d62f8", "subnet-09ee6b913685974b8", "subnet-09d3ff5eb0f197551"]
  const SecurityGroups: seq<string> := ["sg-0ba05e4c8058af77b"]

  /** The environment the transcoder container is started with. */
  function TaskEnvironment(outputPath: string, videoKey: string): seq<EnvVar> {
    [EnvVar("TEMP_VIDEO_KEY", videoKey), EnvVar("S3_OUTPUT_PATH", outputPath), EnvVar("AWS_REGION", TaskRegion)]
  }

  /** Looks a variable up by name, as the container's `process.env` does. */
  function Lookup(env: seq<EnvVar>, name: string): Option<string>
    decreases |env|
  {
    if env == [] then None
    else if env[0].name == name then Some(env[0].value)
    else Lookup(env[1..], name)
  }

  /**
   * The request of `RunTask(outputPath, videoKey)`. The first parameter is the output
   * path and the second the key; the container sees them as S3_OUTPUT_PATH and
   * TEMP_VIDEO_KEY.
   */
  function BuildRunTask(cfg: DispatcherConfig, outputPath: string, videoKey: string): (req: RunTaskRequest)
    ensures req.launchType == "FARGATE" && req.network == NetworkConfig("ENABLED", Subnets, SecurityGroups)
    ensures req.taskDefinition == cfg.taskDefinition && req.cluster == cfg.cluster
    ensures |req.overrides| == 1 && req.overrides[0].name == ContainerName
    ensures Lookup(req.overrides[0].environment, "TEMP_VIDEO_KEY") == Some(videoKey)
    ensures Lookup(req.overrides[0].environment, "S3_OUTPUT_PATH") == Some(outputPath)
    ensures Lookup(req.overrides[0].environment, "AWS_REGION") == Some(TaskRegion)
  {
    // The three names differ in their first letter, so each lookup stops at its own entry.
    assert "S3_OUTPUT_PATH"[0] != "TEMP_VIDEO_KEY"[0];
    assert "AWS_REGION"[0] != "TEMP_VIDEO_KEY"[0] && "AWS_REGION"[0] != "S3_OUTPUT_PATH"[0];
    var env := TaskEnvironment(outputPath, videoKey);
    assert Lookup(env[2..], "AWS_REGION") == Some(TaskRegion);
    assert Lookup(env[1..], "AWS_REGION") == Lookup(env[2..], "AWS_REGION");
    RunTaskRequest(cfg.taskDefinition, cfg.cluster, "FARGATE",
      NetworkConfig("ENABLED", Subnets, SecurityGroups),
      [ContainerOverride(ContainerName, TaskEnvironment(outputPath, videoKey))])
  }

  /** The three variables, in that order, and nothing else. */
  lemma EnvironmentIsExact(cfg: DispatcherConfig, outputPath: string, videoKey: string)
    ensures var env := BuildRunTask(cfg, outputPath, videoKey).overrides[0].environment;
      && |env| == 3
      && env[0] == EnvVar("TEMP_VIDEO_KEY", videoKey)
      && env[1] == EnvVar("S3_OUTPUT_PATH", outputPath)
      && env[2] == EnvVar("AWS_REGION", "eu-north-1")
  {
  }

  /** Swapping the arguments swaps what the container sees: the order of the parameters matters. */
  lemma ArgumentOrderMatters(cfg: DispatcherConfig, a: string, b: string)
    requires a != b
    ensures BuildRunTask(cfg, a, b) != BuildRunTask(cfg, b, a)
  {
    var e1 := BuildRunTask(cfg, a, b).overrides[0].environment;
    var e2 := BuildRunTask(cfg, b, a).overrides[0].environment;
    assert e1[0].value == b && e2[0].value == a;
  }

  /** The part of the service's answer the code reads: `tasks?.[0]?.taskArn`. */
  datatype TaskInfo = TaskInfo(taskArn: Option<string>)

  datatype RunTaskResponse = SendFailed | Response(tasks: Option<seq<TaskInfo>>)

  datatype DispatchError = MissingArguments | SendError | TaskNotStarted

  /** `reslut.tasks?.[0]?.taskArn`, truthy. */
  predicate StartedTask(resp: RunTaskResponse) {
    resp.Response? && resp.tasks.Some? && |resp.tasks.value| > 0
    && resp.tasks.value[0].taskArn.Some? && resp.tasks.value[0].taskArn.value != ""
  }

  class EcsClient {
    const config: DispatcherConfig
    /** Every request sent, oldest first. */
    var sent: seq<RunTaskRequest>

    constructor (config: DispatcherConfig)
      ensures this.config == config && sent == []
    {
      this.config := config;
      sent := [];
    }

    /**
     * `RunTask(outputPath, videoKey)`: nothing is sent when an argument is empty;
     * otherwise one request is sent and the call fails unless the answer names a
     * started task. On success nothing is returned (the ARN is dropped).
     */
    method RunTask(outputPath: string, videoKey: string, response: RunTaskResponse)
      returns (r: Result<(), DispatchError>)
      modifies this
      ensures videoKey == "" || outputPath == "" ==> r == Err(MissingArguments) && sent == old(sent)
      ensures videoKey != "" && outputPath != "" ==> sent == old(sent) + [BuildRunTask(config, outputPath, videoKey)]
      ensures videoKey != "" && outputPath != "" ==>
        (r.Ok? <==> StartedTask(response))
        && (response.SendFailed? ==> r == Err(SendError))
        && (response.Response? && !StartedTask(response) ==> r == Err(TaskNotStarted))
    {
      if videoKey == "" || outputPath == "" {
        return Err(MissingArguments);
      }
      var request := BuildRunTask(config, outputPath, videoKey);
      sent := sent + [request];
      if response.SendFailed? {
        return Err(SendError);
      }
      var arn: Option<string> := None;
      if response.tasks.Some? && |response.tasks.value| > 0 {
        arn := response.tasks.value[0].taskArn;
      }
      if arn == None || arn.value == "" {
        return Err(TaskNotStarted);
      }
      r := Ok(());
    }
  }
}
