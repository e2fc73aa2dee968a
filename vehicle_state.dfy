/**
 * The simulated vehicle's state: every file-level static of the Mustang model
 * gathered into one value, plus the frames handed to the transport.
 */
module VehicleState {
  import opened Bytes
  import opened Encoders

  /** A CAN frame handed to the transport: standard identifier and payload. */
  datatype Frame = Frame(id: int, data: seq<byte>)

  /** The periodic emitters, one per transmit timer. */
  datatype Emitter =
    | Button81 | Rpm | Speed | Temperature | TirePressure | Vin | Blinker3B | Drive109 | AbsTrac

  /** Repetition interval of each emitter, in milliseconds. */
  function Interval(e: Emitter): u32
  {
    match e
    case Button81 => 10
    case Rpm => 100
    case Speed => 100
    case Temperature => 100
    case TirePressure => 200
    case Vin => 200
    case Blinker3B => 10
    case Drive109 => 10
    case AbsTrac => 10
  }

  /** The last-fired time of every emitter. */
  datatype Timers = Timers(
    button81: u32, rpm: u32, speed: u32, temperature: u32, tirePressure: u32,
    vin: u32, blinker3B: u32, drive109: u32, absTrac: u32)
  {
    function Get(e: Emitter): u32
    {
      match e
      case Button81 => button81
      case Rpm => rpm
      case Speed => speed
      case Temperature => temperature
      case TirePressure => tirePressure
      case Vin => vin
      case Blinker3B => blinker3B
      case Drive109 => drive109
      case AbsTrac => absTrac
    }

    /** The timers with emitter `e`'s last-fired time replaced by `t`. */
    function Set(e: Emitter, t: u32): Timers
    {
      match e
      case Button81 => this.(button81 := t)
      case Rpm => this.(rpm := t)
      case Speed => this.(speed := t)
      case Temperature => this.(temperature := t)
      case TirePressure => this.(tirePressure := t)
      case Vin => this.(vin := t)
      case Blinker3B => this.(blinker3B := t)
      case Drive109 => this.(drive109 := t)
      case AbsTrac => this.(absTrac := t)
    }
  }

  /** Setting one emitter's time changes that timer and no other. */
  lemma SetGet(timers: Timers, e: Emitter, t: u32)
    ensures timers.Set(e, t).Get(e) == t
    ensures forall other :: other != e ==> timers.Set(e, t).Get(other) == timers.Get(other)
  {
  }

  const ButtonHoldDuration: u32 := 100
  const BlinkerInterval: u32 := 500
  const TireNames: seq<string> := ["Driver Front", "Passenger Front", "Passenger Rear", "Driver Rear"]
  const DefaultVin: string := "10203040506070809"
  /** 35.0 PSI, the default of every tire, as the kPa figure the transmitter
      computes from it: (int)(35.0 * 6.895 + 0.5). */
  const DefaultTireKpa := 241
  const InitialTempMessage: seq<byte> := [0x00, 0x00, 0x00, 0x00, 0x03, 0x00, 0x00, 0x00]

  /** The model's statics. `tireKpa` holds each tire's pressure as the whole
      kPa figure that frame 0x3B5 transmits before narrowing. */
  datatype Snapshot = Snapshot(
    busAttached: bool,
    msgButton: seq<byte>,
    leftBlinker: bool,
    rightBlinker: bool,
    blinkerState: bool,
    lastBlinkerToggle: u32,
    vin: seq<char>,
    vinMessages: seq<seq<byte>>,
    tireKpa: seq<int>,
    buttonPressStart: u32,
    timers: Timers,
    buttonActive: bool,
    lastRpm: int,
    lastSpeed: int,
    tempMessage: seq<byte>)

  /** The fixed sizes of the model's buffers. */
  predicate WellFormed(s: Snapshot)
  {
    && |s.msgButton| == 8
    && |s.vin| == VinLength
    && |s.vinMessages| == 3
    && (forall k :: 0 <= k < 3 ==> |s.vinMessages[k]| == 8)
    && |s.tireKpa| == 4
    && |s.tempMessage| == 8
  }

  /** The statics as the program starts, before `mustang_init`: no transport,
      zeroed VIN frames and timers, the placeholder VIN and 35 PSI tires. */
  function Initial(): (s: Snapshot)
    ensures WellFormed(s)
    ensures !s.busAttached && s.vin == DefaultVin && !s.buttonActive
    ensures !s.leftBlinker && !s.rightBlinker && !s.blinkerState
  {
    Snapshot(
      busAttached := false,
      msgButton := DefaultPayload,
      leftBlinker := false,
      rightBlinker := false,
      blinkerState := false,
      lastBlinkerToggle := 0,
      vin := DefaultVin,
      vinMessages := [DefaultPayload, DefaultPayload, DefaultPayload],
      tireKpa := [DefaultTireKpa, DefaultTireKpa, DefaultTireKpa, DefaultTireKpa],
      buttonPressStart := 0,
      timers := Timers(0, 0, 0, 0, 0, 0, 0, 0, 0),
      buttonActive := false,
      lastRpm := 0,
      lastSpeed := 0,
      tempMessage := InitialTempMessage)
  }

  /** `mustang_init`: remember whether a transport is present and pack the VIN frames. */
  function Attach(s: Snapshot, bus: bool): (r: Snapshot)
    requires WellFormed(s)
    ensures WellFormed(r)
    ensures r.busAttached == bus && r.vinMessages == VinFrames(s.vin)
    ensures r == s.(busAttached := bus, vinMessages := r.vinMessages)
  {
    s.(busAttached := bus, vinMessages := VinFrames(s.vin))
  }
}
