/** Results of operations: Linux errno values, and their one-byte wire form. */
module Errno {

  type byte = b: int | 0 <= b < 0x100
  type u16 = n: int | 0 <= n < 0x1_0000

  // Values of the generic Linux errno header, negated as the source uses them.
  const EINTR: int := -4
  const EIO: int := -5
  const EAGAIN: int := -11
  const ENOMEM: int := -12
  const ENODEV: int := -19
  const EINVAL: int := -22
  const EBADR: int := -53            // "never set"
  const EILSEQ: int := -84           // implementation error
  const EMSGSIZE: int := -90
  const EPROTONOSUPPORT: int := -93
  const ENOTCONN: int := -107
  const ESHUTDOWN: int := -108
  const ETIMEDOUT: int := -110
  const EINPROGRESS: int := -115     // request in flight
  const ECANCELED: int := -125

  /** gb_operation_status_map: the status byte of a response as an errno. */
  function StatusMap(status: byte): (errno: int)
  {
    match status
    case 0x00 => 0
    case 0x01 => EINTR
    case 0x02 => ETIMEDOUT
    case 0x03 => ENOMEM
    case 0x04 => EPROTONOSUPPORT
    case 0x05 => EMSGSIZE
    case 0x06 => EINVAL
    case 0x07 => EAGAIN
    case 0x08 => ENODEV
    case 0xff => EILSEQ
    case _ => EIO
  }

  /** gb_operation_errno_map: the status byte that reports an errno. */
  function ErrnoMap(errno: int): (status: byte)
  {
    if errno == 0 then 0x00
    else if errno == EINTR then 0x01
    else if errno == ETIMEDOUT then 0x02
    else if errno == ENOMEM then 0x03
    else if errno == EPROTONOSUPPORT then 0x04
    else if errno == EMSGSIZE then 0x05
    else if errno == EINVAL then 0x06
    else if errno == EAGAIN then 0x07
    else if errno == EILSEQ then 0xff
    else if errno == ENODEV then 0x08
    else 0xfe
  }

  /** A result that result_set records as the final one: neither reserved value. */
  predicate Final(errno: int) {
    errno != EBADR && errno != EINPROGRESS
  }

  /** Little-endian 16-bit field. */
  function Le16(lo: byte, hi: byte): (n: u16) {
    lo + 0x100 * hi
  }
}
