/** domain.NodeRole; in the source a string, of which two values are known. */
module Roles {
  datatype NodeRole = UnknownRole | ControlRole | WorkerRole
}
