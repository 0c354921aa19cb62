/**
 * One HID transaction: write a whole command frame, read one reply, and accept the
 * transaction only when every command byte went out and exactly REPLY_SIZE bytes came back.
 */
module Transport {
  import opened Protocol

  /** How a transaction ended, in the order wraith_communicate checks. */
  datatype Transaction =
    | Done
    | WriteError
    | ShortWrite(written: int)
    | ReadError
    | ShortReply(received: int)

  /**
   * The outcome for a write that returned `written` and a read that returned `received`;
   * `received` does not matter when the write failed, since no read is made then.
   */
  function Transact(written: int, received: int): (t: Transaction)
    ensures t == Done <==> written >= CMD_SIZE && received == REPLY_SIZE
    ensures written < 0 ==> t == WriteError
    ensures 0 <= written < CMD_SIZE ==> t == ShortWrite(written)
    ensures written >= CMD_SIZE && received < 0 ==> t == ReadError
    ensures written >= CMD_SIZE && received >= 0 && received != REPLY_SIZE ==> t == ShortReply(received)
  {
    if written < 0 then WriteError
    else if written < CMD_SIZE then ShortWrite(written)
    else if received < 0 then ReadError
    else if received != REPLY_SIZE then ShortReply(received)
    else Done
  }

  /** The value wraith_communicate returns. */
  function StatusCode(t: Transaction): (r: int)
    ensures r == 0 || r == -1
    ensures r == 0 <==> t.Done?
  {
    if t == Done then 0 else -1
  }

  /**
   * An opened Wraith Prism HID handle. What hid_write and hid_read return is not in the
   * model's hands: the device answers the k-th frame written (counting from 0) with
   * writeResult(k) from hid_write and readResult(k) from the following hid_read. The device
   * records every frame handed to hid_write.
   */
  class HidDevice {
    var sent: seq<Frame>
    const writeResult: nat -> int
    const readResult: nat -> int

    constructor (writeResult: nat -> int, readResult: nat -> int)
      ensures sent == []
      ensures this.writeResult == writeResult && this.readResult == readResult
    {
      this.writeResult := writeResult;
      this.readResult := readResult;
      sent := [];
    }

    /** hid_write of a whole frame: the device records it and reports a byte count or an error. */
    method Write(frame: Frame) returns (n: int)
      modifies this
      ensures sent == old(sent) + [frame]
      ensures n == writeResult(|old(sent)|)
    {
      n := writeResult(|sent|);
      sent := sent + [frame];
    }

    /** hid_read of the reply to the frame written last. */
    method Read() returns (n: int)
      requires sent != []
      ensures n == readResult(|sent| - 1)
    {
      n := readResult(|sent| - 1);
    }
  }

  /** wraith_communicate: one write of `frame`, then one read only if the whole frame went out. */
  method Communicate(dev: HidDevice, frame: Frame) returns (status: int)
    requires |frame| == CMD_SIZE
    modifies dev
    ensures dev.sent == old(dev.sent) + [frame]
    ensures var k := |old(dev.sent)|;
      status == StatusCode(Transact(dev.writeResult(k), dev.readResult(k)))
    ensures status == 0 <==> dev.writeResult(|old(dev.sent)|) >= CMD_SIZE && dev.readResult(|old(dev.sent)|) == REPLY_SIZE
  {
    var ret := dev.Write(frame);
    if ret < 0 {
      return -1;
    }
    if ret < CMD_SIZE {
      return -1;
    }
    ret := dev.Read();
    if ret < 0 {
      return -1;
    }
    if ret != REPLY_SIZE {
      return -1;
    }
    return 0;
  }
}
