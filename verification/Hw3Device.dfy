/** The button and LED driver of HW16/module3/hw3.c: the state under its spinlock, and what every
    critical section does to it. */
module Hw3Device {
  import opened CInt

  /** `ledLine` is the level last put on the LED's GPIO. */
  datatype Dev = Dev(ledOn: int, btnOn: int, control: int, dataReady: bool, ledLine: int)

  /** The device as `hw3_probe` leaves it. */
  const PROBED := Dev(0, 0, 1, false, 0)

  /** The interrupt handler with the button line at `level`. */
  function Isr(d: Dev, level: int): Dev {
    var d := d.(dataReady := true, btnOn := level);
    if level != 0 && d.control != 0 then d.(ledOn := Xor1(d.ledOn), ledLine := Xor1(d.ledOn)) else d
  }

  /** `hw3_write` once the value is parsed. */
  function Store(d: Dev, val: int): Dev {
    if d.ledOn != Bool(val) then d.(ledOn := Bool(val), ledLine := Bool(val)) else d
  }

  /** The first critical section of HW3IOC_SETLED. */
  function SetLed(d: Dev, val: int): Dev {
    d.(ledOn := Bool(val), ledLine := Bool(val))
  }

  function SetControl(d: Dev, val: int): Dev {
    d.(control := Bool(val))
  }

  /** The consuming end of `hw3_read`. */
  function Take(d: Dev): Dev {
    d.(dataReady := false)
  }

  function Shown(d: Dev): char {
    if d.btnOn != 0 then '1' else '0'
  }

  // What user space writes, and how `kstrtol` reads it.

  datatype Parsed = Value(val: int) | Invalid

  /** `kstrtol(kbuf, 0, &val)` after `kbuf[1] = '\0'`: a string of at most one character is a number
      only if that character is a digit. */
  function ParseFirst(kbuf: string): Parsed {
    if kbuf == [] || !('0' <= kbuf[0] <= '9') then Invalid else Value(kbuf[0] as int - '0' as int)
  }

  /** `sprintf("%d", v)` for a non-negative `v`. */
  function Digits(v: nat): (r: string)
    ensures r != [] && '0' <= r[0] <= '9'
    ensures v > 0 ==> r[0] != '0'
    ensures v == 0 ==> r[0] == '0'
  {
    if v < 10 then [('0' as int + v) as char] else Digits(v / 10) + [('0' as int + v % 10) as char]
  }

  /** What a string of digits stands for. */
  function Decimal(digits: string): int {
    if digits == "" then 0
    else 10 * Decimal(digits[..|digits| - 1]) + digits[|digits| - 1] as int - '0' as int
  }

  /** The digits printed stand for the value printed. */
  lemma {:induction false} DigitsSpell(v: nat)
    ensures Decimal(Digits(v)) == v
    ensures forall i | 0 <= i < |Digits(v)| :: '0' <= Digits(v)[i] <= '9'
    decreases v
  {
    if v < 10 {
      assert Digits(v)[..0] == "";
    } else {
      DigitsSpell(v / 10);
      assert Digits(v)[..|Digits(v)| - 1] == Digits(v / 10);
    }
  }

  function Sprintf(v: int): (r: string)
    ensures r != []
  {
    if v < 0 then "-" + Digits(-v) else Digits(v)
  }

  /** The whole of `hw3_write` on a user buffer: an unparsable buffer changes nothing. */
  function Write(d: Dev, buf: string): Dev {
    match ParseFirst(buf)
    case Invalid => d
    case Value(v) => Store(d, v)
  }

  /** Printing a value and writing it to the device sets the LED to that value, from every device
      state, if and only if the value is 0 or 1. */
  lemma SprintfWriteRoundTrip(v: int)
    ensures (forall d: Dev | d.ledOn == 0 || d.ledOn == 1 :: Write(d, Sprintf(v)).ledOn == v) <==> v == 0 || v == 1
  {
    if v == 1 {
      assert Digits(1) == "1";
    }
    if v < 0 || v > 1 {
      var d := PROBED;
      assert Write(d, Sprintf(v)).ledOn != v;
    }
  }

  datatype ReadResult = Data(c: char) | ReadFault | Again | Sleeps

  datatype WriteResult = Written | WriteFault | WriteInval

  datatype IoctlResult = Ok(val: int) | IoctlFault | NotTty

  datatype Cmd = SETLED | GETLED | KERN_CONTROL | OtherCmd

  class Hw3 {
    var ledOn: int
    var btnOn: int
    var control: int
    var dataReady: bool
    var ledLine: int

    ghost function State(): Dev
      reads this
    {
      Dev(ledOn, btnOn, control, dataReady, ledLine)
    }

    constructor ()
      ensures State() == PROBED
    {
      ledOn, btnOn, control, dataReady, ledLine := 0, 0, 1, false, 0;
    }

    method GpiodSetValue(value: int)
      modifies this`ledLine
      ensures ledLine == value
    {
      ledLine := value;
    }

    method BtnIsr(level: int)
      modifies this
      ensures State() == Isr(old(State()), level)
    {
      dataReady := true;
      btnOn := level;
      if btnOn != 0 && control != 0 {
        ledOn := Xor1(ledOn);
        GpiodSetValue(ledOn);
      }
    }

    /** One pass of `hw3_read` through the lock. */
    method Read(nonblock: bool, copyFails: bool) returns (r: ReadResult)
      modifies this`dataReady
      ensures r.Again? <==> !old(dataReady) && nonblock
      ensures r.Sleeps? <==> !old(dataReady) && !nonblock
      ensures r.ReadFault? <==> old(dataReady) && copyFails
      ensures r.Data? ==> r.c == if old(btnOn) != 0 then '1' else '0'
      ensures !dataReady
      ensures State() == if old(dataReady) then Take(old(State())) else old(State())
    {
      if !dataReady {
        return if nonblock then Again else Sleeps;
      }
      var val := if btnOn != 0 then '1' else '0';
      dataReady := false;
      return if copyFails then ReadFault else Data(val);
    }

    /** The whole of `hw3_write`: a buffer is accepted exactly when it begins with a digit, and every
        digit but 0 switches the LED on. */
    method WriteBuffer(buf: string, copyFails: bool) returns (r: WriteResult)
      modifies this`ledOn, this`ledLine
      ensures r.WriteFault? <==> copyFails
      ensures r.WriteInval? <==> !copyFails && (buf == "" || !('0' <= buf[0] <= '9'))
      ensures !r.Written? ==> State() == old(State())
      ensures r.Written? ==> ledOn == if buf[0] == '0' then 0 else 1
      ensures r.Written? && old(ledLine == ledOn) ==> ledLine == ledOn
      ensures !copyFails ==> State() == Write(old(State()), buf)
    {
      if copyFails {
        return WriteFault;
      }
      var res := ParseFirst(buf);
      if res.Invalid? {
        return WriteInval;
      }
      var val := Bool(res.val);
      if ledOn != val {
        ledOn := val;
        GpiodSetValue(ledOn);
      }
      return Written;
    }

    method Poll() returns (pollIn: bool)
      ensures pollIn == dataReady
    {
      return dataReady;
    }

    /** `hw3_ioctl` run without interference; SETLED falls through to GETLED, so it can change the
        LED and still fail when the value is handed back. */
    method Ioctl(cmd: Cmd, arg: int, getFails: bool, putFails: bool) returns (r: IoctlResult)
      modifies this`ledOn, this`ledLine, this`control
      ensures r.NotTty? <==> cmd.OtherCmd?
      ensures r.IoctlFault? <==> ((cmd.SETLED? || cmd.KERN_CONTROL?) && getFails)
                                 || ((cmd.SETLED? || cmd.GETLED?) && putFails)
      ensures r.Ok? ==> r.val == if cmd.KERN_CONTROL? then arg else ledOn
      ensures cmd.SETLED? && !getFails ==> ledOn == ledLine == if arg != 0 then 1 else 0
      ensures cmd.KERN_CONTROL? && !getFails ==> control == if arg != 0 then 1 else 0
      ensures State() ==
              if cmd.SETLED? && !getFails then SetLed(old(State()), arg)
              else if cmd.KERN_CONTROL? && !getFails then SetControl(old(State()), arg)
              else old(State())
    {
      if cmd.SETLED? || cmd.KERN_CONTROL? {
        if getFails {
          return IoctlFault;
        }
      }
      match cmd
      case SETLED =>
        ledOn := Bool(arg);
        GpiodSetValue(ledOn);
        r := GetLed(putFails);
      case GETLED =>
        r := GetLed(putFails);
      case KERN_CONTROL =>
        control := Bool(arg);
        r := Ok(arg);
      case OtherCmd =>
        r := NotTty;
    }

    method GetLed(putFails: bool) returns (r: IoctlResult)
      ensures r == if putFails then IoctlFault else Ok(ledOn)
    {
      var val := ledOn;
      return if putFails then IoctlFault else Ok(val);
    }
  }
}
