/**
 * The command interpreter of the Mustang model (`mustang_handleCommand`) as a
 * function from the state before a command to the state after it.
 */
module Interpreter {
  import opened Wrappers
  import opened Bytes
  import opened Encoders
  import opened VehicleState

  /** One token of an operator command: its text, and the number the firmware
      decodes from it (the integer for RPM, SPEED and TEMP; for a TIRE
      pressure, the whole kPa figure the PSI value converts to). */
  datatype Token = Token(text: string, value: int)

  /** The slot a tire name addresses. */
  function TireIndex(name: string): (r: Option<nat>)
    ensures r.Some? ==> r.value < 4 && TireNames[r.value] == name
    ensures r.None? <==> name !in TireNames
  {
    if name == TireNames[0] then Some(0)
    else if name == TireNames[1] then Some(1)
    else if name == TireNames[2] then Some(2)
    else if name == TireNames[3] then Some(3)
    else None
  }

  /** `TIRE name pressure`. */
  function SetTire(s: Snapshot, name: string, kpa: int): (r: Snapshot)
    requires WellFormed(s)
    ensures WellFormed(r)
  {
    match TireIndex(name)
    case Some(i) => s.(tireKpa := s.tireKpa[i := kpa])
    case None => s
  }

  /** `VIN text`: only a 17-character VIN is taken, and the frames are repacked from it. */
  function SetVin(s: Snapshot, text: string): (r: Snapshot)
    requires WellFormed(s)
    ensures WellFormed(r)
  {
    if |text| != VinLength then s
    else s.(vin := text, vinMessages := VinFrames(text))
  }

  /** `TEMP kind fahrenheit`: COOLANT is byte 0 of frame 0x156, OIL byte 1. */
  function SetTemperature(s: Snapshot, kind: string, fahrenheit: int): (r: Snapshot)
    requires WellFormed(s)
    ensures WellFormed(r)
  {
    if kind == "COOLANT" then s.(tempMessage := s.tempMessage[0 := TempByte(fahrenheit)])
    else if kind == "OIL" then s.(tempMessage := s.tempMessage[1 := TempByte(fahrenheit)])
    else s
  }

  /** `BLINKER which`. */
  function SetBlinker(s: Snapshot, which: string): (r: Snapshot)
  {
    if which == "LEFT" then s.(leftBlinker := true, rightBlinker := false)
    else if which == "RIGHT" then s.(leftBlinker := false, rightBlinker := true)
    else if which == "BOTH" then s.(leftBlinker := true, rightBlinker := true)
    else if which == "OFF" then s.(leftBlinker := false, rightBlinker := false)
    else s
  }

  /** `HAZARDS`: both blinker flags flip, whatever they were. */
  function ToggleHazards(s: Snapshot): (r: Snapshot)
  {
    s.(leftBlinker := !s.leftBlinker, rightBlinker := !s.rightBlinker)
  }

  /** `handleButtonCommand`: load the button's code into bytes 0 and 1 of the
      button payload, start the hold window at `pressTime` and arm the button. */
  function PressButton(s: Snapshot, command: string, pressTime: u32): (r: Snapshot)
    requires WellFormed(s)
    ensures WellFormed(r)
  {
    LoadCode(s, command).(buttonPressStart := pressTime, buttonActive := true)
  }

  /** Bytes 0 and 1 of the button payload take the code of the named button, if any. */
  function LoadCode(s: Snapshot, command: string): (r: Snapshot)
    requires WellFormed(s)
    ensures WellFormed(r)
  {
    match ButtonCode(command)
    case Some(code) => s.(msgButton := s.msgButton[0 := code.0][1 := code.1])
    case None => s
  }

  predicate IsButtonCommand(command: string)
  {
    command == "UP" || command == "DOWN" || command == "LEFT" ||
    command == "RIGHT" || command == "OK" || command == "SETTINGS"
  }

  /** `mustang_handleCommand(tokens, count)`; `pressTime` is the clock reading
      taken when a button command arrives. */
  function HandleCommand(s: Snapshot, tokens: seq<Token>, pressTime: u32): (r: Snapshot)
    requires WellFormed(s)
    ensures WellFormed(r)
  {
    if |tokens| == 0 then s
    else
      var command := tokens[0].text;
      if command == "RPM" && |tokens| >= 2 then s.(lastRpm := tokens[1].value)
      else if command == "SPEED" && |tokens| >= 2 then s.(lastSpeed := tokens[1].value)
      else if command == "TIRE" && |tokens| >= 3 then SetTire(s, tokens[1].text, tokens[2].value)
      else if command == "VIN" && |tokens| >= 2 then SetVin(s, tokens[1].text)
      else if command == "TEMP" && |tokens| >= 3 then SetTemperature(s, tokens[1].text, tokens[2].value)
      else if command == "BLINKER" && |tokens| >= 2 then SetBlinker(s, tokens[1].text)
      else if command == "HAZARDS" then ToggleHazards(s)
      else if IsButtonCommand(command) then PressButton(s, command, pressTime)
      else s
  }

  // ---------------------------------------------------------------- properties

  /** The command words the interpreter acts on. */
  const CommandWords: set<string> :=
    {"RPM", "SPEED", "TIRE", "VIN", "TEMP", "BLINKER", "HAZARDS",
     "UP", "DOWN", "LEFT", "RIGHT", "OK", "SETTINGS"}

  /** An empty command, an unknown command word, and a known word with too
      few arguments all leave the state as it was. */
  lemma RejectedCommandsChangeNothing(s: Snapshot, tokens: seq<Token>, pressTime: u32)
    requires WellFormed(s)
    requires || |tokens| == 0
             || tokens[0].text !in CommandWords
             || (tokens[0].text in {"RPM", "SPEED", "VIN", "BLINKER"} && |tokens| < 2)
             || (tokens[0].text in {"TIRE", "TEMP"} && |tokens| < 3)
    ensures HandleCommand(s, tokens, pressTime) == s
  {
  }

  /** `RPM n` and `SPEED n` store exactly the decoded value. */
  lemma RpmAndSpeedCommands(s: Snapshot, n: Token, pressTime: u32)
    requires WellFormed(s)
    ensures HandleCommand(s, [Token("RPM", 0), n], pressTime) == s.(lastRpm := n.value)
    ensures HandleCommand(s, [Token("SPEED", 0), n], pressTime) == s.(lastSpeed := n.value)
  {
  }

  /** A tire command overwrites exactly the named slot, and nothing at all for an unknown name. */
  lemma TireCommandTouchesOneSlot(s: Snapshot, name: string, kpa: int, pressTime: u32)
    requires WellFormed(s)
    ensures var r := HandleCommand(s, [Token("TIRE", 0), Token(name, 0), Token("", kpa)], pressTime);
      && (name in TireNames ==>
            exists i :: 0 <= i < 4 && TireNames[i] == name && r == s.(tireKpa := s.tireKpa[i := kpa]))
      && (name !in TireNames ==> r == s)
  {
    var r := HandleCommand(s, [Token("TIRE", 0), Token(name, 0), Token("", kpa)], pressTime);
    if name in TireNames {
      var i := TireIndex(name).value;
      assert TireNames[i] == name && r == s.(tireKpa := s.tireKpa[i := kpa]);
    }
  }

  /** Reading back the tire frame after a tire command yields the new figure
      modulo 256 in the named tire's byte, and the other tires' bytes as before. */
  lemma TireRoundTrip(s: Snapshot, i: nat, kpa: int, pressTime: u32)
    requires WellFormed(s) && i < 4
    ensures var r := HandleCommand(s, [Token("TIRE", 0), Token(TireNames[i], 0), Token("", kpa)], pressTime);
      && TirePayload(r.tireKpa)[2 * i + 1] as int == kpa % 0x100
      && forall t :: 0 <= t < 4 && t != i ==>
           TirePayload(r.tireKpa)[2 * t + 1] == TirePayload(s.tireKpa)[2 * t + 1]
  {
    var r := HandleCommand(s, [Token("TIRE", 0), Token(TireNames[i], 0), Token("", kpa)], pressTime);
    assert TireIndex(TireNames[i]) == Some(i);
    assert r.tireKpa == s.tireKpa[i := kpa];
  }

  /** A VIN of any length but 17 is rejected; a 17-character VIN replaces the
      old one and its frames are repacked from it alone. */
  lemma VinCommand(s: Snapshot, text: string, pressTime: u32)
    requires WellFormed(s)
    ensures var r := HandleCommand(s, [Token("VIN", 0), Token(text, 0)], pressTime);
      && (|text| != VinLength ==> r == s)
      && (|text| == VinLength ==> r == s.(vin := text, vinMessages := VinFrames(text)))
  {
  }

  /** Setting the same VIN twice gives the same state, and so the same frames, as setting it once. */
  lemma VinCommandIdempotent(s: Snapshot, text: string, t1: u32, t2: u32)
    requires WellFormed(s)
    ensures var command := [Token("VIN", 0), Token(text, 0)];
      var once := HandleCommand(s, command, t1);
      HandleCommand(once, command, t2) == once
  {
  }

  /** `TEMP COOLANT f` sets only byte 0 and `TEMP OIL f` only byte 1 of the
      temperature payload; any other kind changes nothing. */
  lemma TempCommand(s: Snapshot, kind: string, fahrenheit: int, pressTime: u32)
    requires WellFormed(s)
    ensures var r := HandleCommand(s, [Token("TEMP", 0), Token(kind, 0), Token("", fahrenheit)], pressTime);
      && (kind == "COOLANT" ==> r == s.(tempMessage := s.tempMessage[0 := TempByte(fahrenheit)]))
      && (kind == "OIL" ==> r == s.(tempMessage := s.tempMessage[1 := TempByte(fahrenheit)]))
      && (kind != "COOLANT" && kind != "OIL" ==> r == s)
  {
  }

  /** `BLINKER` sets both flags from its argument and ignores anything it does not know. */
  lemma BlinkerCommand(s: Snapshot, which: string, pressTime: u32)
    requires WellFormed(s)
    ensures var r := HandleCommand(s, [Token("BLINKER", 0), Token(which, 0)], pressTime);
      && (which == "LEFT" ==> r == s.(leftBlinker := true, rightBlinker := false))
      && (which == "RIGHT" ==> r == s.(leftBlinker := false, rightBlinker := true))
      && (which == "BOTH" ==> r == s.(leftBlinker := true, rightBlinker := true))
      && (which == "OFF" ==> r == s.(leftBlinker := false, rightBlinker := false))
      && (which !in {"LEFT", "RIGHT", "BOTH", "OFF"} ==> r == s)
  {
  }

  /** `HAZARDS` twice restores both blinker flags, and the rest of the state. */
  lemma HazardsTwiceRestores(s: Snapshot, t1: u32, t2: u32)
    requires WellFormed(s)
    ensures var once := HandleCommand(s, [Token("HAZARDS", 0)], t1);
      once.leftBlinker == !s.leftBlinker && once.rightBlinker == !s.rightBlinker &&
      HandleCommand(once, [Token("HAZARDS", 0)], t2) == s
  {
  }

  /** A button command loads that button's code, starts the hold at the press
      time and arms the button, leaving bytes 2..7 of the payload alone. */
  lemma ButtonCommand(s: Snapshot, command: string, pressTime: u32)
    requires WellFormed(s)
    requires IsButtonCommand(command)
    ensures var r := HandleCommand(s, [Token(command, 0)], pressTime);
      && r.buttonActive && r.buttonPressStart == pressTime
      && (r.msgButton[0], r.msgButton[1]) == ButtonCode(command).value
      && r.msgButton[2..] == s.msgButton[2..]
      && r == s.(msgButton := r.msgButton, buttonPressStart := pressTime, buttonActive := true)
  {
    assert command != "HAZARDS";
    assert HandleCommand(s, [Token(command, 0)], pressTime) == PressButton(s, command, pressTime);
    ButtonCodeDomain(command);
  }
}
