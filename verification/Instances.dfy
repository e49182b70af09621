/** internal/domain/instance/instance.go: what the instance modules share. */
module Instances {
  datatype Status = Pending | Running | Stopped | WaitForShutdown | Restarting | Terminated

  datatype Address = Address(vpcId: string, ip: string)
}
