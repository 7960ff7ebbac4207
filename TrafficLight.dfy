/** The `st::PS_TrafficLight` polling sensor as an object: its fields, the
    constructor that initialises them, and the methods the ST_Anything
    framework calls. Every method is specified by the definitions of module
    `TrafficLightSpec`; the calls the sensor makes into the framework are
    recorded in `calls`, in order. */
module TrafficLight {
  import opened ArduinoString
  import opened TrafficLightSpec

  /** An Arduino `byte`. */
  type Byte = x: int | 0 <= x < 256

  /** A call the sensor makes into the ST_Anything framework. */
  datatype FrameworkCall =
    | SendSmartString(text: string)     // `Everything::sendSmartString`: a message queued for the hub
    | ReceiveSmartString(text: string)  // `st::receiveSmartString`: a command for the RGB device
    | SetInterval(interval: int)        // `PollingSensor::setInterval`: the new polling interval

  class PS_TrafficLight {
    const name: string
    const rgbSwitch: string
    var triggerPin: Byte
    var echoPin: Byte
    var currentMillis: U32
    var previousMillis: U32
    var stInterval: U32
    var previousPIN: string
    var localPoll: string
    var proceedDistance: string
    var warningDistance: string
    var stopDistance: string
    var tooFarDistance: string
    var sensorValue: real
    var calls: seq<FrameworkCall>

    /** The five settings fields as one value. */
    function CurrentSettings(): Settings
      reads this`localPoll, this`proceedDistance, this`warningDistance, this`stopDistance, this`tooFarDistance
    {
      Settings(localPoll, proceedDistance, warningDistance, stopDistance, tooFarDistance)
    }

    /** The fields take their declared initial values, the report interval is
        `interval`, and the sensor asks the hub for its settings. The sensor
        is a global object of the sketch, so `currentMillis` starts at 0. */
    constructor (name: string, interval: U32, offset: int, digitalTriggerPin: Byte, digitalEchoPin: Byte, rgbSwitch: string)
      ensures this.name == name && this.rgbSwitch == rgbSwitch
      ensures triggerPin == digitalTriggerPin && echoPin == digitalEchoPin
      ensures currentMillis == 0 && previousMillis == InitialPreviousMillis && stInterval == interval
      ensures previousPIN == "off" && sensorValue == 0.0
      ensures CurrentSettings() == DefaultSettings
      ensures calls == [SendSmartString(name + " " + "get_inputs")]
    {
      this.name := name;
      this.rgbSwitch := rgbSwitch;
      currentMillis := 0;
      previousMillis := InitialPreviousMillis;
      previousPIN := "off";
      localPoll := "1000";
      proceedDistance := "20";
      warningDistance := "15";
      stopDistance := "10";
      tooFarDistance := "5";
      sensorValue := 0.0;
      stInterval := interval;
      triggerPin := digitalTriggerPin;
      echoPin := digitalEchoPin;
      calls := [SendSmartString(name + " " + "get_inputs")];
    }

    /** `parseSettings`: applies the words of `settingsString` one after another. */
    method ParseSettings(settingsString: string)
      requires |settingsString| < UINT_MAX
      modifies this`localPoll, this`proceedDistance, this`warningDistance, this`stopDistance, this`tooFarDistance
      ensures CurrentSettings() == ParsedSettings(old(CurrentSettings()), settingsString)
    {
      var rest := settingsString;
      while |rest| >= 1 && rest[0] != ' '
        invariant |rest| < UINT_MAX
        invariant ApplyWords(CurrentSettings(), Words(rest)) == ParsedSettings(old(CurrentSettings()), settingsString)
        decreases |rest|
      {
        var s := rest + " ";
        var myKey := UpTo(s, ':');
        var myValue := Between(s, ':', ' ');
        ParseStep(CurrentSettings(), rest);
        StorePair(myKey, myValue);
        rest := After(s, ' ');
      }
    }

    /** The five `if (myKey == ...)` statements of one `parseSettings` pass. */
    method StorePair(myKey: string, myValue: string)
      modifies this`localPoll, this`proceedDistance, this`warningDistance, this`stopDistance, this`tooFarDistance
      ensures CurrentSettings() == ApplyPair(old(CurrentSettings()), myKey, myValue)
    {
      if myKey == "local_poll" { localPoll := myValue; }
      if myKey == "proceed_distance" { proceedDistance := myValue; }
      if myKey == "warning_distance" { warningDistance := myValue; }
      if myKey == "stop_distance" { stopDistance := myValue; }
      if myKey == "too_far_distance" { tooFarDistance := myValue; }
    }

    /** `beSmart`: a message is read as `Dispatch` says. Settings text is
        parsed and the polling interval is then set from `localPoll`; a report
        interval is stored in `stInterval` as an `unsigned long`; anything else
        changes nothing. */
    method BeSmart(str: string)
      requires |str| <= UINT_MAX
      modifies this`localPoll, this`proceedDistance, this`warningDistance, this`stopDistance, this`tooFarDistance
      modifies this`stInterval, this`calls
      ensures match Dispatch(str)
        case Inputs(text) =>
          CurrentSettings() == ParsedSettings(old(CurrentSettings()), text) &&
          stInterval == old(stInterval) && calls == old(calls) + [SetInterval(ToInt(localPoll))]
        case ReportInterval(n) =>
          CurrentSettings() == old(CurrentSettings()) && stInterval == ToUnsigned(n) && calls == old(calls)
        case Ignored =>
          CurrentSettings() == old(CurrentSettings()) && stInterval == old(stInterval) && calls == old(calls)
    {
      var s := After(str, ' ');
      var firstWord := UpTo(s, ' ');
      if firstWord == "inputs" {
        ParseSettings(After(s, ' '));
        calls := calls + [SetInterval(ToInt(localPoll))];
      } else if ToInt(s) != 0 {
        stInterval := ToUnsigned(ToInt(s));
      }
    }

    /** `stoplight`: sends exactly one colour command, the one `Light` gives
        for the zone of `sensorValue`, and updates `previousPIN` as it says. */
    method Stoplight()
      modifies this`previousPIN, this`calls
      ensures var step := old(Light(ZoneFor(sensorValue, CurrentSettings()), previousPIN));
        previousPIN == step.pin && calls == old(calls) + [ReceiveSmartString(rgbSwitch + " " + step.colour)]
    {
      if sensorValue <= ToInt(tooFarDistance) as real {
        if previousPIN == "off" {
          calls := calls + [ReceiveSmartString(rgbSwitch + " " + RED)];
          previousPIN := "on";
        } else {
          calls := calls + [ReceiveSmartString(rgbSwitch + " " + DARK)];
          previousPIN := "off";
        }
      } else if sensorValue <= ToInt(stopDistance) as real {
        calls := calls + [ReceiveSmartString(rgbSwitch + " " + RED)];
      } else if sensorValue <= ToInt(warningDistance) as real {
        calls := calls + [ReceiveSmartString(rgbSwitch + " " + YELLOW)];
      } else if sensorValue <= ToInt(proceedDistance) as real {
        calls := calls + [ReceiveSmartString(rgbSwitch + " " + GREEN)];
      } else {
        calls := calls + [ReceiveSmartString(rgbSwitch + " " + DARK)];
      }
    }

    /** `getData` with the reading `distance` and the clock at `now`: the
        light command for `distance` is sent, and the distance is reported
        exactly when `ReportDue` holds, which then moves `previousMillis` to `now`. */
    method GetData(distance: real, now: U32)
      requires distance >= 0.0
      modifies this`sensorValue, this`previousPIN, this`currentMillis, this`previousMillis, this`calls
      ensures sensorValue == distance && currentMillis == now
      ensures var step := old(Light(ZoneFor(distance, CurrentSettings()), previousPIN));
        previousPIN == step.pin
      ensures var light := ReceiveSmartString(rgbSwitch + " " + old(Light(ZoneFor(distance, CurrentSettings()), previousPIN)).colour);
        if ReportDue(now, old(previousMillis), stInterval) then
          previousMillis == now && calls == old(calls) + [light] + [SendSmartString(name + " " + DistanceText(distance))]
        else
          previousMillis == old(previousMillis) && calls == old(calls) + [light]
    {
      ghost var step := Light(ZoneFor(distance, CurrentSettings()), previousPIN);
      sensorValue := distance;
      Stoplight();
      assert previousPIN == step.pin && calls == old(calls) + [ReceiveSmartString(rgbSwitch + " " + step.colour)];
      currentMillis := now;
      if ReportDue(currentMillis, previousMillis, stInterval) {
        previousMillis := currentMillis;
        calls := calls + [SendSmartString(name + " " + DistanceText(sensorValue))];
      }
    }
  }
}
