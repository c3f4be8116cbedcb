/** The value types shared by the process package: process identifiers and connections. */
module ProcessTypes {

  /** A pid is a Go int: negative values stand for remote hosts, values from
      MAX_INT32 up stand for data nodes, the rest for processes. */
  type Pid = int

  const MAX_INT32: Pid := 0x7FFF_FFFF

  datatype Endpoint = Endpoint(name: string, pid: Pid)

  datatype Connection = Connection(typ: string, self: Endpoint, peer: Endpoint)

  /** The same connection with another peer pid. */
  function Retarget(c: Connection, pid: Pid): Connection {
    c.(peer := c.peer.(pid := pid))
  }
}
