/** Vocabulary shared by the driver models: optional values, bytes and the NTSTATUS codes the drivers answer with. */
module NtKernel {

  datatype Option<+T> = None | Some(value: T)

  newtype byte = b: int | 0 <= b < 256

  /** NTSTATUS is a signed 32-bit word; the model keeps its signed value. */
  type Status = int

  const STATUS_SUCCESS: Status := 0
  const STATUS_TIMEOUT: Status := 0x102
  const STATUS_PENDING: Status := 0x103
  const STATUS_BUFFER_OVERFLOW: Status := 0x80000005 - 0x1_0000_0000
  const STATUS_HANDLES_CLOSED: Status := 0x8000000A - 0x1_0000_0000
  const STATUS_UNSUCCESSFUL: Status := 0xC0000001 - 0x1_0000_0000
  const STATUS_INVALID_HANDLE: Status := 0xC0000008 - 0x1_0000_0000
  const STATUS_INVALID_PARAMETER: Status := 0xC000000D - 0x1_0000_0000
  const STATUS_ACCESS_DENIED: Status := 0xC0000022 - 0x1_0000_0000
  const STATUS_OBJECT_NAME_NOT_FOUND: Status := 0xC0000034 - 0x1_0000_0000
  const STATUS_SHARING_VIOLATION: Status := 0xC0000043 - 0x1_0000_0000
  const STATUS_INSUFFICIENT_RESOURCES: Status := 0xC000009A - 0x1_0000_0000
  const STATUS_DEVICE_NOT_READY: Status := 0xC00000A3 - 0x1_0000_0000
  const STATUS_PIPE_DISCONNECTED: Status := 0xC00000B0 - 0x1_0000_0000
  const STATUS_CANCELLED: Status := 0xC0000120 - 0x1_0000_0000
  const STATUS_INVALID_CONNECTION: Status := 0xC0000140 - 0x1_0000_0000
  const STATUS_INVALID_DEVICE_STATE: Status := 0xC0000184 - 0x1_0000_0000
  const STATUS_INVALID_BUFFER_SIZE: Status := 0xC0000206 - 0x1_0000_0000
  const STATUS_INVALID_ADDRESS_COMPONENT: Status := 0xC0000207 - 0x1_0000_0000
  const STATUS_CONNECTION_RESET: Status := 0xC000020D - 0x1_0000_0000
  const STATUS_CONNECTION_REFUSED: Status := 0xC0000236 - 0x1_0000_0000
  const STATUS_CONNECTION_ACTIVE: Status := 0xC000023B - 0x1_0000_0000

  predicate NtSuccess(status: Status) { status >= 0 }

  function Min(a: int, b: int): (m: int)
    ensures m <= a && m <= b && (m == a || m == b)
  {
    if a < b then a else b
  }
}
