/** Types and limits shared by the driver's parts. */
module Axiom {

  datatype Option<+T> = None | Some(value: T)

  /** AXIOM_NULL_NODE: no node; also the destination of an idle RDMA slot. */
  const NULL_NODE: nat := 255
  const NODES_NUM: nat := 256
  const INTERFACES_NUM: nat := 5
  /** Ports above AXIOM_PORT_MAX are not for users; the port field of a header has three bits. */
  const PORT_NUM: nat := 7
  const PORT_VALUES: nat := 8
  const MSG_ID_NUM: nat := 256

  /** The eight bits of a byte, lowest first. */
  type Bits = m: seq<bool> | |m| == 8 witness seq(8, _ => false)
}
