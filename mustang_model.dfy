/**
 * The Mustang model as the firmware runs it: its statics as the fields of one
 * object, its fixed buffers as arrays written in place, and the transport as
 * an optional sink that records every frame handed to it. Each entry point is
 * proved against the functional model of `Interpreter` and `Scheduler`.
 */
module Mustang {
  import opened Wrappers
  import opened Bytes
  import opened Encoders
  import opened VehicleState
  import opened Interpreter
  import opened Scheduler

  class MustangModel {
    /** `canBus != nullptr`: a transport is attached. */
    var busAttached: bool
    /** The frames handed to the transport so far, oldest first. */
    var sent: seq<Frame>

    const msgButton: array<byte>
    var leftBlinkerActive: bool
    var rightBlinkerActive: bool
    var blinkerState: bool
    var lastBlinkerToggle: u32
    const vin: array<char>
    const vinMessages: array2<byte>
    /** Tire pressures, as the whole kPa figures frame 0x3B5 transmits. */
    const tirePressures: array<int>
    var buttonPressStartTime: u32
    var lastRpmTime: u32
    var lastSpeedTime: u32
    var lastTirePressureTime: u32
    var lastVinMessageTime: u32
    var last3BMessagesTime: u32
    var last109MessageTime: u32
    var lastAbsTracMessageTime: u32
    var lastTempMessageTime: u32
    var last81MessageTime: u32
    var buttonActive: bool
    var lastRpm: int
    var lastSpeed: int
    const tempMessage: array<byte>

    /** The buffers have the firmware's fixed sizes. */
    ghost predicate Valid()
    {
      && msgButton.Length == 8
      && tempMessage.Length == 8
      && vin.Length == VinLength
      && vinMessages.Length0 == 3 && vinMessages.Length1 == 8
      && tirePressures.Length == 4
      && msgButton != tempMessage
    }

    /** Row `k` of the VIN frame buffer. */
    function VinRow(k: nat): (row: seq<byte>)
      requires Valid() && k < 3
      reads vinMessages
      ensures |row| == 8 && forall j :: 0 <= j < 8 ==> row[j] == vinMessages[k, j]
    {
      seq(8, j requires 0 <= j < 8 reads vinMessages => vinMessages[k, j])
    }

    ghost function VinRows(): (rows: seq<seq<byte>>)
      requires Valid()
      reads vinMessages
      ensures |rows| == 3 && forall k :: 0 <= k < 3 ==> rows[k] == VinRow(k)
    {
      [VinRow(0), VinRow(1), VinRow(2)]
    }

    // The parts of the abstract value, each reading only its own storage.

    ghost function ButtonBytes(): seq<byte>
      reads msgButton
    {
      msgButton[..]
    }

    ghost function VinText(): seq<char>
      reads vin
    {
      vin[..]
    }

    ghost function TireKpa(): seq<int>
      reads tirePressures
    {
      tirePressures[..]
    }

    ghost function TempBytes(): seq<byte>
      reads tempMessage
    {
      tempMessage[..]
    }

    ghost function TimerValues(): Timers
      reads this`last81MessageTime, this`lastRpmTime, this`lastSpeedTime, this`lastTempMessageTime
      reads this`lastTirePressureTime, this`lastVinMessageTime, this`last3BMessagesTime
      reads this`last109MessageTime, this`lastAbsTracMessageTime
    {
      Timers(
        last81MessageTime, lastRpmTime, lastSpeedTime, lastTempMessageTime, lastTirePressureTime,
        lastVinMessageTime, last3BMessagesTime, last109MessageTime, lastAbsTracMessageTime)
    }

    /** The abstract value of the statics. */
    ghost function Snap(): (s: Snapshot)
      requires Valid()
      reads this`busAttached, this`leftBlinkerActive, this`rightBlinkerActive, this`blinkerState
      reads this`lastBlinkerToggle, this`buttonPressStartTime, this`buttonActive, this`lastRpm, this`lastSpeed
      reads this`last81MessageTime, this`lastRpmTime, this`lastSpeedTime, this`lastTempMessageTime
      reads this`lastTirePressureTime, this`lastVinMessageTime, this`last3BMessagesTime
      reads this`last109MessageTime, this`lastAbsTracMessageTime
      reads msgButton, vin, vinMessages, tirePressures, tempMessage
      ensures WellFormed(s)
    {
      Snapshot(
        busAttached := busAttached,
        msgButton := ButtonBytes(),
        leftBlinker := leftBlinkerActive,
        rightBlinker := rightBlinkerActive,
        blinkerState := blinkerState,
        lastBlinkerToggle := lastBlinkerToggle,
        vin := VinText(),
        vinMessages := VinRows(),
        tireKpa := TireKpa(),
        buttonPressStart := buttonPressStartTime,
        timers := TimerValues(),
        buttonActive := buttonActive,
        lastRpm := lastRpm,
        lastSpeed := lastSpeed,
        tempMessage := TempBytes())
    }

    /** The statics' initial values. */
    constructor ()
      ensures Valid() && Snap() == Initial() && sent == []
      ensures fresh(msgButton) && fresh(vin) && fresh(vinMessages) && fresh(tirePressures) && fresh(tempMessage)
    {
      busAttached := false;
      sent := [];
      msgButton := new byte[8](_ => 0x00);
      leftBlinkerActive, rightBlinkerActive, blinkerState := false, false, false;
      lastBlinkerToggle := 0;
      vin := new char[VinLength](i requires 0 <= i < VinLength => DefaultVin[i]);
      vinMessages := new byte[3, 8]((_, _) => 0x00);
      tirePressures := new int[4](_ => DefaultTireKpa);
      buttonPressStartTime := 0;
      lastRpmTime, lastSpeedTime, lastTirePressureTime, lastVinMessageTime := 0, 0, 0, 0;
      last3BMessagesTime, last109MessageTime, lastAbsTracMessageTime := 0, 0, 0;
      lastTempMessageTime, last81MessageTime := 0, 0;
      buttonActive := false;
      lastRpm, lastSpeed := 0, 0;
      tempMessage := new byte[8](i requires 0 <= i < 8 => InitialTempMessage[i]);
      new;
      assert ButtonBytes() == DefaultPayload;
      assert VinRow(0) == DefaultPayload && VinRow(1) == DefaultPayload && VinRow(2) == DefaultPayload;
      assert VinText() == DefaultVin;
      assert TireKpa() == [DefaultTireKpa, DefaultTireKpa, DefaultTireKpa, DefaultTireKpa];
      assert TempBytes() == InitialTempMessage;
    }

    // ------------------------------------------------------------ facade

    /** `mustang_init`: attach the transport (or none) and pack the VIN frames. */
    method Init(bus: bool)
      requires Valid()
      modifies this`busAttached, vinMessages
      ensures Valid()
      ensures Snap() == Attach(old(Snap()), bus) && sent == old(sent)
    {
      busAttached := bus;
      PrepareVinMessages();
    }

    /** `mustang_tick(now)`: run the nine rate-limited blocks in the firmware's order. */
    method Tick(now: u32)
      requires Valid()
      modifies this, msgButton
      ensures Valid()
      ensures Snap() == TickState(old(Snap()), now)
      ensures sent == old(sent) + TickFrames(old(Snap()), now)
    {
      // Each block leaves the rest of the run, from the state it produced, to go.
      ghost var s := Snap();
      assert TickOrder == [Button81] + [Rpm, Speed, Temperature, TirePressure, Vin, Blinker3B, Drive109, AbsTrac];
      RunCons(s, Button81, [Rpm, Speed, Temperature, TirePressure, Vin, Blinker3B, Drive109, AbsTrac], now);
      AppendAssoc(sent, Emission(s, Button81, now), RunFrames(Step(s, Button81, now), [Rpm, Speed, Temperature, TirePressure, Vin, Blinker3B, Drive109, AbsTrac], now));
      TickButton(now);
      s := Snap();
      RunCons(s, Rpm, [Speed, Temperature, TirePressure, Vin, Blinker3B, Drive109, AbsTrac], now);
      AppendAssoc(sent, Emission(s, Rpm, now), RunFrames(Step(s, Rpm, now), [Speed, Temperature, TirePressure, Vin, Blinker3B, Drive109, AbsTrac], now));
      TickRpm(now);
      s := Snap();
      RunCons(s, Speed, [Temperature, TirePressure, Vin, Blinker3B, Drive109, AbsTrac], now);
      AppendAssoc(sent, Emission(s, Speed, now), RunFrames(Step(s, Speed, now), [Temperature, TirePressure, Vin, Blinker3B, Drive109, AbsTrac], now));
      TickSpeed(now);
      s := Snap();
      RunCons(s, Temperature, [TirePressure, Vin, Blinker3B, Drive109, AbsTrac], now);
      AppendAssoc(sent, Emission(s, Temperature, now), RunFrames(Step(s, Temperature, now), [TirePressure, Vin, Blinker3B, Drive109, AbsTrac], now));
      TickTemperature(now);
      s := Snap();
      RunCons(s, TirePressure, [Vin, Blinker3B, Drive109, AbsTrac], now);
      AppendAssoc(sent, Emission(s, TirePressure, now), RunFrames(Step(s, TirePressure, now), [Vin, Blinker3B, Drive109, AbsTrac], now));
      TickTirePressure(now);
      s := Snap();
      RunCons(s, Vin, [Blinker3B, Drive109, AbsTrac], now);
      AppendAssoc(sent, Emission(s, Vin, now), RunFrames(Step(s, Vin, now), [Blinker3B, Drive109, AbsTrac], now));
      TickVin(now);
      s := Snap();
      RunCons(s, Blinker3B, [Drive109, AbsTrac], now);
      AppendAssoc(sent, Emission(s, Blinker3B, now), RunFrames(Step(s, Blinker3B, now), [Drive109, AbsTrac], now));
      TickBlinkers(now);
      s := Snap();
      RunCons(s, Drive109, [AbsTrac], now);
      AppendAssoc(sent, Emission(s, Drive109, now), RunFrames(Step(s, Drive109, now), [AbsTrac], now));
      TickDrive109(now);
      s := Snap();
      RunCons(s, AbsTrac, [], now);
      AppendAssoc(sent, Emission(s, AbsTrac, now), RunFrames(Step(s, AbsTrac, now), [], now));
      TickAbsTrac(now);
    }

    /** The hold has expired: disarm the button and clear its byte 1. */
    method ReleaseButton()
      requires Valid()
      modifies this`buttonActive, msgButton
      ensures Snap() == old(Snap()).(buttonActive := false, msgButton := old(Snap()).msgButton[1 := 0x00])
    {
      buttonActive := false;
      msgButton[1] := 0x00;
    }

    /** The 0x81 block: every 10 ms, sends the button or idle frame after
        resolving the hold, and records `now`. */
    method TickButton(now: u32)
      requires Valid()
      modifies this`buttonActive, this`sent, this`last81MessageTime, msgButton
      ensures Snap() == Step(old(Snap()), Button81, now)
      ensures sent == old(sent) + Emission(old(Snap()), Button81, now)
    {
      if Elapsed(now, last81MessageTime) >= Interval(Button81) {
        SendButtonFrame(now);
        ghost var s := Snap();
        last81MessageTime := now;
        assert Snap() == s.(timers := s.timers.(button81 := now));
      }
    }

    /** The body of the 0x81 block: the button's payload while it is held;
        past the hold window, disarm it, clear its byte 1 and send the idle payload. */
    method SendButtonFrame(now: u32)
      requires Valid()
      modifies this`buttonActive, this`sent, msgButton
      ensures Snap() == ButtonBlock(old(Snap()), now)
      ensures sent == old(sent) + if busAttached then [ButtonFrame(old(Snap()), now)] else []
    {
      if buttonActive && Elapsed(now, buttonPressStartTime) <= ButtonHoldDuration {
        SendButtonMessage();
      } else {
        ReleaseButton();
        SendDefaultMessage();
      }
    }

    /** The 0x204 block: sends the RPM frame when 100 ms have passed, and records `now`. */
    method TickRpm(now: u32)
      requires Valid()
      modifies this`sent, this`lastRpmTime
      ensures Snap() == Step(old(Snap()), Rpm, now)
      ensures sent == old(sent) + Emission(old(Snap()), Rpm, now)
    {
      ghost var s := Snap();
      if Elapsed(now, lastRpmTime) >= Interval(Rpm) {
        SendRpmMessage(lastRpm);
        lastRpmTime := now;
        assert Snap() == s.(timers := s.timers.(rpm := now));
      }
    }

    /** The 0x202 block: sends the speed frame when 100 ms have passed, and records `now`. */
    method TickSpeed(now: u32)
      requires Valid()
      modifies this`sent, this`lastSpeedTime
      ensures Snap() == Step(old(Snap()), Speed, now)
      ensures sent == old(sent) + Emission(old(Snap()), Speed, now)
    {
      ghost var s := Snap();
      if Elapsed(now, lastSpeedTime) >= Interval(Speed) {
        SendSpeedMessage(lastSpeed);
        lastSpeedTime := now;
        assert Snap() == s.(timers := s.timers.(speed := now));
      }
    }

    /** The 0x156 block: sends the temperature frame when 100 ms have passed, and records `now`. */
    method TickTemperature(now: u32)
      requires Valid()
      modifies this`sent, this`lastTempMessageTime
      ensures Snap() == Step(old(Snap()), Temperature, now)
      ensures sent == old(sent) + Emission(old(Snap()), Temperature, now)
    {
      ghost var s := Snap();
      if Elapsed(now, lastTempMessageTime) >= Interval(Temperature) {
        SendTemperatureMessage();
        lastTempMessageTime := now;
        assert Snap() == s.(timers := s.timers.(temperature := now));
      }
    }

    /** The 0x3B5 block: sends the tire frame when 200 ms have passed, and records `now`. */
    method TickTirePressure(now: u32)
      requires Valid()
      modifies this`sent, this`lastTirePressureTime
      ensures Snap() == Step(old(Snap()), TirePressure, now)
      ensures sent == old(sent) + Emission(old(Snap()), TirePressure, now)
    {
      ghost var s := Snap();
      if Elapsed(now, lastTirePressureTime) >= Interval(TirePressure) {
        SendTirePressureMessage();
        lastTirePressureTime := now;
        assert Snap() == s.(timers := s.timers.(tirePressure := now));
      }
    }

    /** The 0x40A block: sends the three VIN frames when 200 ms have passed, and records `now`. */
    method TickVin(now: u32)
      requires Valid()
      modifies this`sent, this`lastVinMessageTime
      ensures Snap() == Step(old(Snap()), Vin, now)
      ensures sent == old(sent) + Emission(old(Snap()), Vin, now)
    {
      ghost var s := Snap();
      if Elapsed(now, lastVinMessageTime) >= Interval(Vin) {
        SendVinMessages();
        lastVinMessageTime := now;
        assert Snap() == s.(timers := s.timers.(vin := now));
      }
    }

    /** The 0x3B3/0x3B2 block: every 10 ms, flips the phase if due and sends
        the blinker frames, and records `now`. */
    method TickBlinkers(now: u32)
      requires Valid()
      modifies this`blinkerState, this`lastBlinkerToggle, this`sent, this`last3BMessagesTime
      ensures Snap() == Step(old(Snap()), Blinker3B, now)
      ensures sent == old(sent) + Emission(old(Snap()), Blinker3B, now)
    {
      if Elapsed(now, last3BMessagesTime) >= Interval(Blinker3B) {
        Send3BMessages(now);
        ghost var s := Snap();
        last3BMessagesTime := now;
        assert Snap() == s.(timers := s.timers.(blinker3B := now));
      }
    }

    /** The 0x109 block: sends the drivetrain frame every 10 ms, and records `now`. */
    method TickDrive109(now: u32)
      requires Valid()
      modifies this`sent, this`last109MessageTime
      ensures Snap() == Step(old(Snap()), Drive109, now)
      ensures sent == old(sent) + Emission(old(Snap()), Drive109, now)
    {
      ghost var s := Snap();
      if Elapsed(now, last109MessageTime) >= Interval(Drive109) {
        Send109Message();
        last109MessageTime := now;
        assert Snap() == s.(timers := s.timers.(drive109 := now));
      }
    }

    /** The 0x416 block: sends the ABS/traction frame every 10 ms, and records `now`. */
    method TickAbsTrac(now: u32)
      requires Valid()
      modifies this`sent, this`lastAbsTracMessageTime
      ensures Snap() == Step(old(Snap()), AbsTrac, now)
      ensures sent == old(sent) + Emission(old(Snap()), AbsTrac, now)
    {
      ghost var s := Snap();
      if Elapsed(now, lastAbsTracMessageTime) >= Interval(AbsTrac) {
        SendAbsTracMessage();
        lastAbsTracMessageTime := now;
        assert Snap() == s.(timers := s.timers.(absTrac := now));
      }
    }

    /** `mustang_handleCommand(tokens, count)`; `pressTime` is the clock
        reading `millis()` would give when a button command arrives. */
    method HandleCommand(tokens: seq<Token>, pressTime: u32)
      requires Valid()
      modifies this, msgButton, vin, vinMessages, tirePressures, tempMessage
      ensures Valid()
      ensures Snap() == Interpreter.HandleCommand(old(Snap()), tokens, pressTime)
      ensures sent == old(sent)
    {
      if |tokens| == 0 {
        return;
      }
      var command := tokens[0].text;
      if command == "RPM" && |tokens| >= 2 {
        StoreRpm(tokens[1].value);
      } else if command == "SPEED" && |tokens| >= 2 {
        StoreSpeed(tokens[1].value);
      } else if command == "TIRE" && |tokens| >= 3 {
        SetTirePressure(tokens[1].text, tokens[2].value);
      } else if command == "VIN" && |tokens| >= 2 {
        SetVin(tokens[1].text);
      } else if command == "TEMP" && |tokens| >= 3 {
        SetTemperature(tokens[1].text, tokens[2].value);
      } else if command == "BLINKER" && |tokens| >= 2 {
        SetBlinker(tokens[1].text);
      } else if command == "HAZARDS" {
        ToggleHazardLights();
      } else if IsButtonCommand(command) {
        HandleButtonCommand(command, pressTime);
      }
    }

    /** The `RPM` branch: keep the engine speed for frame 0x204. */
    method StoreRpm(value: int)
      requires Valid()
      modifies this`lastRpm
      ensures Snap() == old(Snap()).(lastRpm := value)
    {
      lastRpm := value;
    }

    /** The `SPEED` branch: keep the vehicle speed for frame 0x202. */
    method StoreSpeed(value: int)
      requires Valid()
      modifies this`lastSpeed
      ensures Snap() == old(Snap()).(lastSpeed := value)
    {
      lastSpeed := value;
    }

    /** The `HAZARDS` branch: toggle both blinkers. */
    method ToggleHazardLights()
      requires Valid()
      modifies this`leftBlinkerActive, this`rightBlinkerActive
      ensures Snap() == ToggleHazards(old(Snap()))
    {
      leftBlinkerActive := !leftBlinkerActive;
      rightBlinkerActive := !rightBlinkerActive;
    }

    /** The `TIRE` branch: find the named tire (the search stops at the first
        match) and overwrite its pressure; an unknown name changes nothing. */
    method SetTirePressure(tireName: string, pressure: int)
      requires Valid()
      modifies tirePressures
      ensures Snap() == Interpreter.SetTire(old(Snap()), tireName, pressure)
    {
      var i := 0;
      while i < 4
        invariant 0 <= i <= 4
        invariant forall k :: 0 <= k < i ==> TireNames[k] != tireName
        invariant tirePressures[..] == old(tirePressures[..])
      {
        if tireName == TireNames[i] {
          tirePressures[i] := pressure;
          assert TireIndex(tireName) == Some(i);
          break;
        }
        i := i + 1;
      }
    }

    /** The `VIN` branch: a VIN of any length but 17 is refused; otherwise it
        is copied in and the frames are repacked. */
    method SetVin(newVin: string)
      requires Valid()
      modifies vin, vinMessages
      ensures Snap() == Interpreter.SetVin(old(Snap()), newVin)
    {
      if |newVin| != VinLength {
        return;
      }
      forall i | 0 <= i < VinLength {
        vin[i] := newVin[i];
      }
      assert vin[..] == newVin;
      PrepareVinMessages();
    }

    /** The `TEMP` branch: the converted byte goes to byte 0 for COOLANT and
        byte 1 for OIL; any other kind is refused. */
    method SetTemperature(kind: string, fahrenheit: int)
      requires Valid()
      modifies tempMessage
      ensures Snap() == Interpreter.SetTemperature(old(Snap()), kind, fahrenheit)
    {
      var tempHex := TempByte(fahrenheit);
      if kind == "COOLANT" {
        tempMessage[0] := tempHex;
      } else if kind == "OIL" {
        tempMessage[1] := tempHex;
      }
    }

    /** The `BLINKER` branch. */
    method SetBlinker(which: string)
      requires Valid()
      modifies this`leftBlinkerActive, this`rightBlinkerActive
      ensures Snap() == Interpreter.SetBlinker(old(Snap()), which)
    {
      if which == "LEFT" {
        leftBlinkerActive, rightBlinkerActive := true, false;
      } else if which == "RIGHT" {
        leftBlinkerActive, rightBlinkerActive := false, true;
      } else if which == "BOTH" {
        leftBlinkerActive, rightBlinkerActive := true, true;
      } else if which == "OFF" {
        leftBlinkerActive, rightBlinkerActive := false, false;
      }
    }

    // ------------------------------------------------------------ internal helpers

    /** `prepareVINMessages`: clear the three VIN frames, then lay the 17 VIN
        characters into them six at a time behind the tag and frame index, and
        put the pad into the last byte of the third frame. */
    method PrepareVinMessages()
      requires Valid()
      modifies vinMessages
      ensures VinRows() == VinFrames(vin[..])
    {
      forall k, j | 0 <= k < 3 && 0 <= j < 8 {
        vinMessages[k, j] := 0x00;
      }
      var i := 0;
      while i < VinLength
        invariant 0 <= i <= VinLength
        invariant forall k, j :: 0 <= k < 3 && 0 <= j < 8 ==> vinMessages[k, j] == PackedSoFar(vin[..], i, k, j)
      {
        var msgIndex := i / 6;
        var byteIndex := i % 6 + 2;
        vinMessages[msgIndex, 0] := VinTag;
        vinMessages[msgIndex, 1] := msgIndex as byte;
        vinMessages[msgIndex, byteIndex] := CharByte(vin[i]);
        i := i + 1;
      }
      vinMessages[2, 7] := VinPad;
      forall k | 0 <= k < 3
        ensures VinRow(k) == VinFrames(vin[..])[k]
      {
        forall j | 0 <= j < 8
          ensures VinRow(k)[j] == VinFrames(vin[..])[k][j]
        {
          VinFrameAt(vin[..], k, j);
        }
      }
    }

    /** `handleButtonCommand`: load the button's code, start the hold window, arm the button. */
    method HandleButtonCommand(command: string, pressTime: u32)
      requires Valid()
      modifies this`buttonPressStartTime, this`buttonActive, msgButton
      ensures Snap() == PressButton(old(Snap()), command, pressTime)
    {
      LoadCommandCode(command);
      ArmButton(pressTime);
    }

    method LoadCommandCode(command: string)
      requires Valid()
      modifies msgButton
      ensures Snap() == LoadCode(old(Snap()), command)
    {
      if command == "UP" {
        assert ButtonCode(command) == Some((0x08, 0x00));
        LoadButtonCode(0x08, 0x00);
      } else if command == "DOWN" {
        assert ButtonCode(command) == Some((0x01, 0x00));
        LoadButtonCode(0x01, 0x00);
      } else if command == "LEFT" {
        assert ButtonCode(command) == Some((0x02, 0x00));
        LoadButtonCode(0x02, 0x00);
      } else if command == "RIGHT" {
        assert ButtonCode(command) == Some((0x04, 0x00));
        LoadButtonCode(0x04, 0x00);
      } else if command == "OK" {
        assert ButtonCode(command) == Some((0x10, 0x00));
        LoadButtonCode(0x10, 0x00);
      } else if command == "SETTINGS" {
        assert ButtonCode(command) == Some((0x46, 0x01));
        LoadButtonCode(0x46, 0x01);
      } else {
        assert ButtonCode(command) == None;
      }
    }

    /** Bytes 0 and 1 of the button payload take the pressed button's code. */
    method LoadButtonCode(b0: byte, b1: byte)
      requires Valid()
      modifies msgButton
      ensures Snap() == old(Snap()).(msgButton := old(Snap()).msgButton[0 := b0][1 := b1])
    {
      msgButton[0], msgButton[1] := b0, b1;
    }

    /** Start the 100 ms hold window at `pressTime` and arm the button. */
    method ArmButton(pressTime: u32)
      requires Valid()
      modifies this`buttonPressStartTime, this`buttonActive
      ensures Snap() == old(Snap()).(buttonPressStart := pressTime, buttonActive := true)
    {
      buttonPressStartTime := pressTime;
      buttonActive := true;
    }

    /** `canBus->sendMsgBuf(id, 0, 8, payload)`: hand one frame to the transport. */
    method Send(id: int, payload: seq<byte>)
      modifies this`sent
      ensures sent == old(sent) + [Frame(id, payload)]
    {
      sent := sent + [Frame(id, payload)];
    }

    method SendButtonMessage()
      requires Valid()
      modifies this`sent
      ensures sent == old(sent) + if busAttached then [Frame(0x81, msgButton[..])] else []
    {
      if !busAttached {
        return;
      }
      Send(0x81, msgButton[..]);
    }

    method SendDefaultMessage()
      modifies this`sent
      ensures sent == old(sent) + if busAttached then [Frame(0x81, DefaultPayload)] else []
    {
      if !busAttached {
        return;
      }
      Send(0x81, DefaultPayload);
    }

    /** The three VIN frames, in order, all under identifier 0x40A. */
    method SendVinMessages()
      requires Valid()
      modifies this`sent
      ensures sent == old(sent) + if busAttached then VinFrameList() else []
    {
      if !busAttached {
        return;
      }
      for i := 0 to 3
        invariant sent == old(sent) + VinFrameList()[..i]
      {
        Send(0x40A, VinRow(i));
        assert VinFrameList()[..i + 1] == VinFrameList()[..i] + [Frame(0x40A, VinRow(i))];
      }
    }

    ghost function VinFrameList(): (frames: seq<Frame>)
      requires Valid()
      reads vinMessages
    {
      [Frame(0x40A, VinRow(0)), Frame(0x40A, VinRow(1)), Frame(0x40A, VinRow(2))]
    }

    /** `send3BMessages(now)`: flip the blink phase when 500 ms have passed,
        then send the blinker payload under 0x3B3 and 0x3B2. Without a
        transport it returns before the phase is looked at. */
    method Send3BMessages(now: u32)
      requires Valid()
      modifies this`blinkerState, this`lastBlinkerToggle, this`sent
      ensures Snap() == BlinkerBlock(old(Snap()), now)
      ensures sent == old(sent) + if busAttached then BlinkerFrames(old(Snap()), now) else []
    {
      if !busAttached {
        return;
      }
      if Elapsed(now, lastBlinkerToggle) >= BlinkerInterval {
        FlipBlinkPhase(now);
      }
      var msg := BlinkerPayload(blinkerState, leftBlinkerActive, rightBlinkerActive);
      Send(0x3B3, msg);
      Send(0x3B2, msg);
    }

    /** Invert the blink phase and remember when. */
    method FlipBlinkPhase(now: u32)
      requires Valid()
      modifies this`blinkerState, this`lastBlinkerToggle
      ensures blinkerState == !old(blinkerState) && lastBlinkerToggle == now
      ensures Snap() == old(Snap()).(blinkerState := !old(blinkerState), lastBlinkerToggle := now)
    {
      blinkerState := !blinkerState;
      lastBlinkerToggle := now;
    }

    method Send109Message()
      modifies this`sent
      ensures sent == old(sent) + if busAttached then [Frame(0x109, Payload109)] else []
    {
      if !busAttached {
        return;
      }
      Send(0x109, Payload109);
    }

    method SendAbsTracMessage()
      modifies this`sent
      ensures sent == old(sent) + if busAttached then [Frame(0x416, AbsTracPayload)] else []
    {
      if !busAttached {
        return;
      }
      Send(0x416, AbsTracPayload);
    }

    method SendRpmMessage(rpmValue: int)
      modifies this`sent
      ensures sent == old(sent) + if busAttached then [Frame(0x204, RpmPayload(rpmValue))] else []
    {
      if !busAttached {
        return;
      }
      Send(0x204, RpmPayload(rpmValue));
    }

    method SendSpeedMessage(speedValue: int)
      modifies this`sent
      ensures sent == old(sent) + if busAttached then [Frame(0x202, SpeedPayload(speedValue))] else []
    {
      if !busAttached {
        return;
      }
      Send(0x202, SpeedPayload(speedValue));
    }

    method SendTemperatureMessage()
      requires Valid()
      modifies this`sent
      ensures sent == old(sent) + if busAttached then [Frame(0x156, tempMessage[..])] else []
    {
      if !busAttached {
        return;
      }
      Send(0x156, tempMessage[..]);
    }

    /** `sendTirePressureMessage`: tire `i`'s kPa figure, narrowed to a byte,
        goes to byte `2i + 1` of an otherwise zero payload. */
    method SendTirePressureMessage()
      requires Valid()
      modifies this`sent
      ensures sent == old(sent) + if busAttached then [Frame(0x3B5, TirePayload(tirePressures[..]))] else []
    {
      if !busAttached {
        return;
      }
      var msg := new byte[8](_ => 0x00);
      for i := 0 to 4
        invariant sent == old(sent)
        invariant forall t :: 0 <= t < 4 ==> msg[2 * t] == 0x00
        invariant forall t :: 0 <= t < i ==> msg[2 * t + 1] == Low8(tirePressures[t])
        invariant forall t :: i <= t < 4 ==> msg[2 * t + 1] == 0x00
      {
        msg[2 * i + 1] := Low8(tirePressures[i]);
      }
      ghost var expected := TirePayload(tirePressures[..]);
      forall j | 0 <= j < 8
        ensures msg[j] == expected[j]
      {
        var t := j / 2;
        if j % 2 == 1 {
          assert j == 2 * t + 1;
        } else {
          assert j == 2 * t;
        }
      }
      assert msg[..] == expected;
      Send(0x3B5, msg[..]);
    }
  }

  lemma AppendAssoc(a: seq<Frame>, b: seq<Frame>, c: seq<Frame>)
    ensures (a + b) + c == a + (b + c)
  {
  }

  /** The VIN frame buffer after `prepareVINMessages` has laid out the first
      `i` characters: frames reached so far carry tag and index, the bytes of
      characters laid out carry them, and everything else is still zero. */
  ghost function PackedSoFar(vin: seq<char>, i: nat, k: nat, j: nat): byte
    requires |vin| == VinLength && i <= VinLength && k < 3 && j < 8
  {
    if j == 0 then (if 6 * k < i then VinTag else 0x00)
    else if j == 1 then (if 6 * k < i then k as byte else 0x00)
    else if 6 * k + j - 2 < i && 6 * k + j - 2 < VinLength then CharByte(vin[6 * k + j - 2])
    else 0x00
  }
}
