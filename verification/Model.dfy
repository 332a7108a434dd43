/**
 The stored VM record, reduced to the fields some decision depends on.
 */
module Model {

  datatype PortRequest = PortRequest(guest: int, host: int, protocol: string)

  datatype PortBinding = PortBinding(guest: int, host: int, protocol: string)

  /** A value of the free-form metadata object: a string, or anything else JSON allows. */
  datatype MetaValue = Text(text: string) | Other

  /** `createdAt` counts instants; Go's zero time is one of them. */
  datatype VmMeta = VmMeta(
    id: string,
    createdAt: int,
    guestIp: string,
    ports: seq<PortBinding>,
    tags: map<string, string>,
    metadata: map<string, MetaValue>)

  const ZERO_TIME: int := 0

  function HostPorts(bindings: seq<PortBinding>): set<int> {
    set b | b in bindings :: b.host
  }
}
