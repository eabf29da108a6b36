/** Limits of the network protocol. */
module Protocol {
  const MAX_SIZE: nat := 0x0200_0000
  const MAX_PROTOCOL_MESSAGE_LENGTH: nat := 4_000_000
  const DEFAULT_RECV_FLOOD_SIZE: nat := 5_000_000
  const MESSAGE_HEADER_SIZE: nat := 24
  const COMMAND_SIZE: nat := 12
  const MAX_LOCATOR_SZ: nat := 101
  const MAX_INV_SIZE: nat := 50_000
  const MAX_HEADERS_SIZE: nat := 2000
  const MAX_ADDR_SIZE: nat := 1000
  const MAX_SUBVERSION_LENGTH: nat := 256
  const MAX_ORPHAN_HEADERS: nat := 1000
  const MAX_ORPHAN_HEADERS_PER_PEER: nat := 50
}
