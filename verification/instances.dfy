/**
 * The provisioned resources: nodes (workers) and hubs (the coordinators nodes attach to).
 * Creation and termination of the underlying cloud instances are not part of this model;
 * a resource is simply built with its identifier, type, creation time and address.
 */
module Instances {

  /** A worker instance; its identity is its value. */
  datatype Node = Node(instanceId: string, creationTime: int, ipAddress: string)

  /**
   * A hub instance. Its identifier, type, creation time and address never change; the
   * nodes attached to it and the node count its grid asked for are updated in place.
   */
  class Hub {
    const instanceId: string
    const instanceType: string
    const creationTime: int
    const ipAddress: string
    var nodes: seq<Node>
    var requestedNodeSize: nat

    /** `Hub(instance_id, instance_type, creation_time, ip_address, number_of_nodes)`: starts with no nodes. */
    constructor (instanceId: string, instanceType: string, creationTime: int, ipAddress: string, requestedNodeSize: nat)
      ensures this.instanceId == instanceId && this.instanceType == instanceType
      ensures this.creationTime == creationTime && this.ipAddress == ipAddress
      ensures this.requestedNodeSize == requestedNodeSize && nodes == []
    {
      this.instanceId := instanceId;
      this.instanceType := instanceType;
      this.creationTime := creationTime;
      this.ipAddress := ipAddress;
      this.requestedNodeSize := requestedNodeSize;
      nodes := [];
    }
  }
}
