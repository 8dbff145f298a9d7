/** The waits the driver computes after streaming bytes to the modem:
    `math.ceil(size * 8 / baudrate)` seconds after a file upload (line 251) and
    `math.ceil(len(payload) / baudrate)` seconds after an MQTT payload
    (line 352). The quotients are computed exactly here. */
module Budget {

  /** The serial line rate the driver opens the port with. */
  const BaudRate: nat := 9600

  /** The least `q` with `q * d >= n`. */
  function CeilDiv(n: nat, d: nat): (q: nat)
    requires d > 0
    ensures q * d >= n
    ensures q == 0 || (q - 1) * d < n
  {
    (n + d - 1) / d
  }

  /** Seconds to wait after uploading a file of `size` bytes: the time the
      bits take at the line rate, rounded up to whole seconds. */
  function UploadWait(size: nat): nat {
    CeilDiv(size * 8, BaudRate)
  }

  /** Seconds to wait after an MQTT payload of `length` characters; the
      source divides the length by the line rate without the factor 8. */
  function PublishWait(length: nat): nat {
    CeilDiv(length, BaudRate)
  }

  /** The upload wait is the whole number of seconds that covers the bits,
      and no more. */
  lemma UploadWaitCovers(size: nat)
    ensures UploadWait(size) * BaudRate >= size * 8
    ensures UploadWait(size) == 0 || (UploadWait(size) - 1) * BaudRate < size * 8
    ensures size == 0 <==> UploadWait(size) == 0
  {
  }

  /** More data never means less waiting. */
  lemma UploadWaitMonotone(a: nat, b: nat)
    requires a <= b
    ensures UploadWait(a) <= UploadWait(b)
  {
  }

  /** The publish wait counts characters, not bits: it is one eighth of the
      time the bits take, rounded up, so it is at most the upload wait for as
      many bytes. */
  lemma PublishWaitBelowUploadWait(length: nat)
    ensures PublishWait(length) <= UploadWait(length)
    ensures length > 0 ==> PublishWait(length) >= 1
  {
  }
}
