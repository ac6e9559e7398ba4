/** What planning can refuse. */
module ComposeErrors {
  datatype PlanError =
    | Cycle(path: seq<string>)
    | MissingDependency(fromService: string, toService: string)
    | UnknownNetwork(service: string, network: string)
    | UnknownVolume(service: string, volume: string)
    | UnknownProfile(profile: string)
    | UnknownService(service: string)
    | ConfigHash(service: string)
}
