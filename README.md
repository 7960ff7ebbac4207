# PS_TrafficLight in Dafny

A model of `st::PS_TrafficLight`, a plugin of the ST_Anything Arduino library.
It is a polling sensor that reads distances from an ultrasonic sensor (trigger
pin and echo pin) and drives an RGB light like a parking traffic light.
The light blinks red when the distance is at or below `too_far_distance`.
It is solid red up to `stop_distance`, yellow up to `warning_distance` and
green up to `proceed_distance`, and it is dark beyond that.

The sensor reports the distance to the SmartThings hub at most once every
`stInterval` seconds. The hub can change the five settings with an `inputs`
message, or the report interval with a bare number.

The project has three modules:

- `ArduinoString` covers the parts of the Arduino `String` class the plugin
  uses, written over Dafny strings:
  - `indexOf` and both forms of `substring`, including the bound swap, the
    clamping, and the -1 that becomes `UINT_MAX` as an `unsigned int`;
  - `toInt` (C's `atol`);
  - the decimal text of a number.
- `TrafficLightSpec` holds the pure definitions and the lemmas about them:
  - the settings and the words `parseSettings` visits;
  - the zones and the colour each one gets;
  - when `getData` reports;
  - how `beSmart` reads a hub message.
- `TrafficLight` holds the class `PS_TrafficLight`. Its fields are the source's
  fields, and its methods are proved against the definitions of
  `TrafficLightSpec`.
  - The framework calls the sensor makes are recorded in order in the field
    `calls`. These are `Everything::sendSmartString`, `st::receiveSmartString`
    and `PollingSensor::setInterval`.
  - `millis()` and the distance `readSensor` measures are parameters of `GetData`.

On these points the model follows the code exactly:

- The thresholds are kept as the text the hub sent. They are read with `toInt`
  every time `stoplight` compares a distance, so a threshold without digits
  acts as 0.
- The bare-number message sets `stInterval`, which `getData` multiplies by
  1000. It is therefore a number of seconds, and it is stored as an
  `unsigned long`. A negative number wraps around.
- The ordering of the thresholds is not checked. `ZoneMonotone` shows that
  the zones still never go backwards as the distance grows, whatever the
  order. `AscendingZones` shows that with ascending thresholds every zone is
  the interval between two consecutive thresholds.

Paths below are relative to the repository root. `cpp` is
`Arduino/libraries/ST_Anything/PS_TrafficLight.cpp` and `h` is
`Arduino/libraries/ST_Anything/PS_TrafficLight.h`.

## Model

| member | source | states |
|---|---|---|
| ArduinoString.ToUnsigned | Arduino/libraries/ST_Anything/PS_TrafficLight.cpp:87 | a signed value stored in a 32-bit unsigned variable is that value modulo 2^32: unchanged when in range, plus 2^32 when negative |
| ArduinoString.IndexOf | Arduino/libraries/ST_Anything/PS_TrafficLight.cpp:66 | `indexOf` gives -1 exactly when the character is absent, and otherwise the position of its first occurrence |
| ArduinoString.IndexOfPrefix | Arduino/libraries/ST_Anything/PS_TrafficLight.cpp:150-151 | a prefix that reaches past the first occurrence has that occurrence at the same place |
| ArduinoString.IndexOfPrefixAbsent | Arduino/libraries/ST_Anything/PS_TrafficLight.cpp:150-151 | a prefix that ends before the first occurrence holds none |
| ArduinoString.Substring | Arduino/libraries/ST_Anything/PS_TrafficLight.cpp:67 | `substring(l, r)` is the slice when in range, is cut back at the end, swaps reversed bounds (cutting them back too), and is empty when both bounds are at or past the end |
| ArduinoString.SubstringFrom | Arduino/libraries/ST_Anything/PS_TrafficLight.cpp:66 | `substring(l)` is the suffix from `l`, or empty when `l` is past the end |
| ArduinoString.UpTo | Arduino/libraries/ST_Anything/PS_TrafficLight.cpp:67 | `s.substring(0, s.indexOf(c))` is all of `s` when `c` is absent, and otherwise the text before the first `c` |
| ArduinoString.After | Arduino/libraries/ST_Anything/PS_TrafficLight.cpp:157 | `s.substring(s.indexOf(c) + 1)` is all of `s` when `c` is absent, and otherwise the text after the first `c` |
| ArduinoString.Between | Arduino/libraries/ST_Anything/PS_TrafficLight.cpp:151 | when an `a` comes before the first `b`, the text between them |
| ArduinoString.DigitChar | Arduino/libraries/ST_Anything/PS_TrafficLight.cpp:138 | the digit character of `d` is a digit whose value is `d` |
| ArduinoString.LeadingDigits | Arduino/libraries/ST_Anything/PS_TrafficLight.cpp:83 | the longest all-digit prefix of the text, which `toInt` reads |
| ArduinoString.LeadingSpaces | Arduino/libraries/ST_Anything/PS_TrafficLight.cpp:83 | the white space `toInt` skips: a run of white space followed by a non-space |
| ArduinoString.NatToString | Arduino/libraries/ST_Anything/PS_TrafficLight.cpp:138 | the decimal text of a number is made of digits, with no leading zero |
| ArduinoString.DecimalValueOfNatToString | Arduino/libraries/ST_Anything/PS_TrafficLight.cpp:138 | reading the decimal text of `n` gives `n` back |
| ArduinoString.LeadingDigitsOfDigits | Arduino/libraries/ST_Anything/PS_TrafficLight.cpp:83 | `toInt` stops reading at the first non-digit |
| ArduinoString.ToIntFromDigit | Arduino/libraries/ST_Anything/PS_TrafficLight.cpp:83 | text that starts with a digit is read as its leading digits |
| ArduinoString.ToIntFromMinus | Arduino/libraries/ST_Anything/PS_TrafficLight.cpp:87 | text that starts with `-` is read as the negated digits after it |
| ArduinoString.ToIntOfDigits | Arduino/libraries/ST_Anything/PS_TrafficLight.cpp:83 | a run of digits followed by non-digit text is read as the number the digits denote |
| ArduinoString.ToIntOfMinusDigits | Arduino/libraries/ST_Anything/PS_TrafficLight.cpp:87 | a minus sign and a run of digits is read as the negated number |
| ArduinoString.ToIntOfNatToString | Arduino/libraries/ST_Anything/PS_TrafficLight.cpp:83 | `toInt` reads the decimal text of `n` back as `n`, whatever non-digit text follows |
| ArduinoString.ToIntOfNegated | Arduino/libraries/ST_Anything/PS_TrafficLight.cpp:87 | `toInt` reads `-` and the decimal text of `n` as `-n` |
| ArduinoString.ToIntWithoutDigits | Arduino/libraries/ST_Anything/PS_TrafficLight.cpp:83 | text without any digit reads as 0, which is why `beSmart` refuses it |
| ArduinoString.ToInt | Arduino/libraries/ST_Anything/PS_TrafficLight.cpp:83-87 | `String::toInt` as `atol`; its partners `ToIntOfNatToString`, `ToIntOfNegated` and `ToIntWithoutDigits` state that it reads a number's decimal text back, reads `-` and digits as the negative value, and reads digit-free text as 0 |
| ArduinoString.SignedDecimal | Arduino/libraries/ST_Anything/PS_TrafficLight.cpp:83-87 | the optional sign and the digits `atol` reads after the white space; `ToIntFromDigit` and `ToIntFromMinus` state its two cases |
| TrafficLightSpec.ApplyPair | Arduino/libraries/ST_Anything/PS_TrafficLight.cpp:152-156 | the five key tests of one pass; `GetApplyPair` states that exactly the setting the key names takes the value, and `UnknownKey` that any other key changes nothing |
| TrafficLightSpec.ApplyWord | Arduino/libraries/ST_Anything/PS_TrafficLight.cpp:150-156 | one word `key:value` of the settings text; `ApplyWordOfPair` and `ParseStepPair` state that it acts as the key and value the pass cuts out, and does nothing without a `:` |
| TrafficLightSpec.ApplyWords | Arduino/libraries/ST_Anything/PS_TrafficLight.cpp:145-158 | the words applied from left to right; `ApplyWordsAppend` states that applying a list and then one more word is applying the longer list |
| TrafficLightSpec.ParsedSettings | Arduino/libraries/ST_Anything/PS_TrafficLight.cpp:143-159 | the settings `parseSettings` leaves; `ParsedSettingsOfJoin` states that each setting gets the value of the last pair naming it, or keeps its value |
| TrafficLightSpec.ZoneFor | Arduino/libraries/ST_Anything/PS_TrafficLight.cpp:166-193 | the zone of a distance with each threshold read by `toInt`; `DefaultZones`, `StopZones` and `NonNumericThreshold` state its value for the declared thresholds, a changed stop bound, and digit-free thresholds |
| TrafficLightSpec.ReportDue | Arduino/libraries/ST_Anything/PS_TrafficLight.cpp:134 | the report test `currentMillis - previousMillis >= stInterval * 1000` in `unsigned long`; `FirstReportImmediate` states that it holds on a first call before 100000000 ms |
| TrafficLightSpec.Reports | Arduino/libraries/ST_Anything/PS_TrafficLight.cpp:134-139 | the times successive calls report at: no more reports than calls, each at one of the call times; `ReportsSpaced` states their spacing |
| TrafficLightSpec.Dispatch | Arduino/libraries/ST_Anything/PS_TrafficLight.cpp:66-67 | `beSmart`'s reading of a whole message; `DispatchAfterName` states that the device name is dropped whatever follows it |
| TrafficLightSpec.KeyNameShape | Arduino/libraries/ST_Anything/PS_TrafficLight.cpp:152-156 | no setting name holds a space or a colon |
| TrafficLightSpec.Set | Arduino/libraries/ST_Anything/PS_TrafficLight.cpp:152-156 | setting one field gives it the new value and leaves the others alone |
| TrafficLightSpec.UnknownKey | Arduino/libraries/ST_Anything/PS_TrafficLight.cpp:152-156 | a key that names no setting changes nothing |
| TrafficLightSpec.GetApplyPair | Arduino/libraries/ST_Anything/PS_TrafficLight.cpp:152-156 | a key/value pair sets the setting its key names to the value, and only that one |
| TrafficLightSpec.WordEnd | Arduino/libraries/ST_Anything/PS_TrafficLight.cpp:149 | the first word ends at its first space or at the end of the text |
| TrafficLightSpec.Words | Arduino/libraries/ST_Anything/PS_TrafficLight.cpp:145-157 | the words `parseSettings` visits are non-empty and hold no space |
| TrafficLightSpec.ApplyWordsAppend | Arduino/libraries/ST_Anything/PS_TrafficLight.cpp:145-158 | applying words one after another is applying their concatenation left to right |
| TrafficLightSpec.WordsTrailingSpace | Arduino/libraries/ST_Anything/PS_TrafficLight.cpp:148 | the space added at every pass changes no word |
| TrafficLightSpec.NoKeyWithSpace | Arduino/libraries/ST_Anything/PS_TrafficLight.cpp:150 | a key holding a space names no setting |
| TrafficLightSpec.ParseStepCut | Arduino/libraries/ST_Anything/PS_TrafficLight.cpp:148-157 | one pass cuts out the first word, and the new `settingsString` is what follows its space plus a space |
| TrafficLightSpec.ParseStepWords | Arduino/libraries/ST_Anything/PS_TrafficLight.cpp:145-157 | one pass takes the first word and leaves a strictly shorter string that holds the remaining words |
| TrafficLightSpec.ParseStepPair | Arduino/libraries/ST_Anything/PS_TrafficLight.cpp:150-156 | the key and value one pass cuts out act as the first word; a word without `:` does nothing |
| TrafficLightSpec.ColonInWord | Arduino/libraries/ST_Anything/PS_TrafficLight.cpp:150-151 | a `:` inside the first word splits it into the key before it and the value after it |
| TrafficLightSpec.SlicesOfPrefix | Arduino/libraries/ST_Anything/PS_TrafficLight.cpp:150-151 | proof helper for `ColonInWord`: slicing a prefix again is the same as slicing the whole text once |
| TrafficLightSpec.ColonPastWord | Arduino/libraries/ST_Anything/PS_TrafficLight.cpp:150-151 | without a `:` in the first word, the key runs past the space and the pass changes nothing |
| TrafficLightSpec.KeyPastSpace | Arduino/libraries/ST_Anything/PS_TrafficLight.cpp:150 | when no `:` comes before the first space, the key holds that space |
| TrafficLightSpec.ParseStep | Arduino/libraries/ST_Anything/PS_TrafficLight.cpp:145-157 | one pass of the loop applies the first word and leaves the rest of the words to apply |
| TrafficLightSpec.WordsOfJoin | Arduino/libraries/ST_Anything/PS_TrafficLight.cpp:145-157 | the words visited in space-separated well-formed pairs are those pairs, in order |
| TrafficLightSpec.PairTextsAppend | Arduino/libraries/ST_Anything/PS_TrafficLight.cpp:145-157 | the text of a list of pairs is the text of all but the last pair, followed by the last pair |
| TrafficLightSpec.ApplyWordOfPair | Arduino/libraries/ST_Anything/PS_TrafficLight.cpp:150-156 | the word `key:value` of a well-formed pair acts as that key and value |
| TrafficLightSpec.ApplyPairText | Arduino/libraries/ST_Anything/PS_TrafficLight.cpp:150-156 | a well-formed pair sets the setting it names and nothing else |
| TrafficLightSpec.ApplyPairTexts | Arduino/libraries/ST_Anything/PS_TrafficLight.cpp:145-157 | after a list of pairs, each setting holds the value of the last pair that names it |
| TrafficLightSpec.ParsedSettingsOfJoin | Arduino/libraries/ST_Anything/PS_TrafficLight.cpp:145-157 | `parseSettings` on well-formed pairs leaves each setting with the value of the last pair naming it, or unchanged when no pair does |
| TrafficLightSpec.LastValueAbsent | Arduino/libraries/ST_Anything/PS_TrafficLight.cpp:152-156 | a setting that no pair names keeps its value |
| TrafficLightSpec.LocalPollKept | Arduino/libraries/ST_Anything/PS_TrafficLight.cpp:76-77 | without a `local_poll` pair, `localPoll` keeps its value |
| TrafficLightSpec.DefaultPollInterval | Arduino/libraries/ST_Anything/PS_TrafficLight.h:47 | an `inputs` message without `local_poll`, on the declared settings, sets the polling interval to 1000 |
| TrafficLightSpec.ZoneOf | Arduino/libraries/ST_Anything/PS_TrafficLight.cpp:166-203 | every distance falls in exactly one zone; thresholds are tried in order, each bound inclusive, and the first one not exceeded wins (each zone's condition in both directions) |
| TrafficLightSpec.ZoneMonotone | Arduino/libraries/ST_Anything/PS_TrafficLight.cpp:166-203 | whatever the order of the thresholds, a nearer distance never falls in a farther zone |
| TrafficLightSpec.AscendingZones | Arduino/libraries/ST_Anything/PS_TrafficLight.cpp:166-203 | with ascending thresholds, stop is exactly (tooFar, stop], warning (stop, warning], proceed (warning, proceed] and waiting beyond proceed |
| TrafficLightSpec.ToIntOfNumeral | Arduino/libraries/ST_Anything/PS_TrafficLight.cpp:166 | a threshold holding the decimal text of `n` is read as `n` |
| TrafficLightSpec.ToIntOfNegatedNumeral | Arduino/libraries/ST_Anything/PS_TrafficLight.cpp:87 | text holding `-` and the decimal text of `n` is read as `-n` |
| TrafficLightSpec.DefaultZones | Arduino/libraries/ST_Anything/PS_TrafficLight.h:48-51 | the declared thresholds are ascending and put 5, 10, 15, 20 and 25 cm in the too-far, stop, warning, proceed and waiting zones |
| TrafficLightSpec.NonNumericThreshold | Arduino/libraries/ST_Anything/PS_TrafficLight.cpp:166-193 | a threshold whose text has no digit acts as a threshold of 0 |
| TrafficLightSpec.ParsedSinglePair | Arduino/libraries/ST_Anything/PS_TrafficLight.cpp:145-157 | settings text of one pair sets the setting that pair names and nothing else |
| TrafficLightSpec.StopDistanceRoundTrip | Arduino/libraries/ST_Anything/PS_TrafficLight.cpp:155 | after `stop_distance:n` (5 < n < 15) on the declared settings, a distance of `n` is a stop and one of `n + 1` is a warning |
| TrafficLightSpec.StopZones | Arduino/libraries/ST_Anything/PS_TrafficLight.cpp:181-191 | with the stop bound at `n` and the other declared thresholds, `n` is a stop and `n + 1` is a warning |
| TrafficLightSpec.Light | Arduino/libraries/ST_Anything/PS_TrafficLight.cpp:166-203 | too-far sends red exactly when `previousPIN` is "off" and flips it; the other zones send their fixed colour and keep `previousPIN` |
| TrafficLightSpec.TooFarColours | Arduino/libraries/ST_Anything/PS_TrafficLight.cpp:166-179 | `n` successive too-far calls send `n` colours |
| TrafficLightSpec.TooFarBlinks | Arduino/libraries/ST_Anything/PS_TrafficLight.cpp:169-178 | successive too-far calls alternate red and dark, red first when `previousPIN` starts "off" |
| TrafficLightSpec.TooFarToggles | Arduino/libraries/ST_Anything/PS_TrafficLight.cpp:169-178 | one too-far call shows red exactly when `previousPIN` is "off", and leaves it "off" exactly when it was not |
| TrafficLightSpec.SteadyRepeats | Arduino/libraries/ST_Anything/PS_TrafficLight.cpp:181-203 | outside the too-far zone, repeating a distance repeats the colour and the state |
| TrafficLightSpec.Elapsed | Arduino/libraries/ST_Anything/PS_TrafficLight.cpp:134 | `currentMillis - previousMillis` in `unsigned long` is the difference, plus 2^32 when the clock has wrapped |
| TrafficLightSpec.IntervalMillis | Arduino/libraries/ST_Anything/PS_TrafficLight.cpp:134 | `stInterval * 1000` is the product when it fits in 32 bits |
| TrafficLightSpec.ReportsSpaced | Arduino/libraries/ST_Anything/PS_TrafficLight.cpp:134-139 | every report comes at least `stInterval * 1000` ms after the one before it |
| TrafficLightSpec.AtMostOneReport | Arduino/libraries/ST_Anything/PS_TrafficLight.cpp:134-139 | two calls closer together than the interval report at most once |
| TrafficLightSpec.RateLimitExample | Arduino/libraries/ST_Anything/PS_TrafficLight.cpp:134-139 | with an interval of 5 seconds, two calls 1000 ms apart report at most once |
| TrafficLightSpec.FirstReportImmediate | Arduino/libraries/ST_Anything/PS_TrafficLight.h:42 | with `previousMillis` starting at 100000000, a call in the first 100000000 ms reports at once (unless the interval exceeds 2^32 - 100000000 ms) |
| TrafficLightSpec.DistanceText | Arduino/libraries/ST_Anything/PS_TrafficLight.cpp:138 | the report text ends in a point and two characters, and its integer part reads back with `toInt` as the whole centimetres |
| TrafficLightSpec.DistanceTextDigits | Arduino/libraries/ST_Anything/PS_TrafficLight.cpp:138 | the report text is digits, a point and two digits, and with the point left out it reads back as the distance in hundredths, rounded half up |
| TrafficLightSpec.DispatchText | Arduino/libraries/ST_Anything/PS_TrafficLight.cpp:67-102 | a report interval is the non-zero value `toInt` reads from the text, and settings text is no longer than the text |
| TrafficLightSpec.AfterName | Arduino/libraries/ST_Anything/PS_TrafficLight.cpp:66 | dropping up to the first space leaves what follows the device name |
| TrafficLightSpec.DispatchAfterName | Arduino/libraries/ST_Anything/PS_TrafficLight.cpp:66 | the device name is dropped whatever follows it |
| TrafficLightSpec.FirstWordIsPrefix | Arduino/libraries/ST_Anything/PS_TrafficLight.cpp:67-74 | the first word is `inputs` only if the text starts with `inputs` |
| TrafficLightSpec.NotInputs | Arduino/libraries/ST_Anything/PS_TrafficLight.cpp:67-74 | text that does not start with `i` has no first word `inputs` |
| TrafficLightSpec.DispatchInputs | Arduino/libraries/ST_Anything/PS_TrafficLight.cpp:74-76 | `inputs <settings>` is read as that settings text |
| TrafficLightSpec.DispatchNumber | Arduino/libraries/ST_Anything/PS_TrafficLight.cpp:83-87 | a number `n` is read as report interval `n`, except that 0 is ignored |
| TrafficLightSpec.DispatchNegative | Arduino/libraries/ST_Anything/PS_TrafficLight.cpp:83-87 | `-n` is read as report interval `-n`, which the unsigned `stInterval` holds as 2^32 - n |
| TrafficLightSpec.DispatchWithoutDigits | Arduino/libraries/ST_Anything/PS_TrafficLight.cpp:94-102 | text with no digit whose first word is not `inputs` is ignored |
| TrafficLightSpec.GarbageIgnored | Arduino/libraries/ST_Anything/PS_TrafficLight.cpp:94-102 | the message "garbage text" is ignored, so by `BeSmart` it changes no setting and sends nothing |
| TrafficLightSpec.GarbageSplits | Arduino/libraries/ST_Anything/PS_TrafficLight.cpp:66 | proof helper for `GarbageIgnored`: "garbage text" is the device name "garbage" followed by a space and "text" |
| TrafficLightSpec.TextIgnored | Arduino/libraries/ST_Anything/PS_TrafficLight.cpp:83-102 | the text "text" is neither settings text nor a number |
| TrafficLight.PS_TrafficLight.constructor | Arduino/libraries/ST_Anything/PS_TrafficLight.cpp:45-55 | the fields take their declared values, `stInterval` is the interval, the pins are stored, and the settings are requested from the hub |
| TrafficLight.PS_TrafficLight.ParseSettings | Arduino/libraries/ST_Anything/PS_TrafficLight.cpp:143-159 | the loop leaves the settings as `ParsedSettings` says: the visited words applied from left to right |
| TrafficLight.PS_TrafficLight.StorePair | Arduino/libraries/ST_Anything/PS_TrafficLight.cpp:152-156 | the five key tests set the named setting to the value and change nothing else |
| TrafficLight.PS_TrafficLight.BeSmart | Arduino/libraries/ST_Anything/PS_TrafficLight.cpp:64-103 | settings text is parsed and the polling interval is then set from `localPoll`; a number is stored in `stInterval`; anything else changes nothing |
| TrafficLight.PS_TrafficLight.Stoplight | Arduino/libraries/ST_Anything/PS_TrafficLight.cpp:163-205 | exactly one colour command is sent, the one `Light` gives for the zone of the distance, and `previousPIN` is updated as `Light` says |
| TrafficLight.PS_TrafficLight.GetData | Arduino/libraries/ST_Anything/PS_TrafficLight.cpp:127-140 | the light command for the distance is sent; the distance is reported exactly when `ReportDue` holds, and `previousMillis` then moves to now |

## Left out

- `readSensor`: the trigger pulse, `pulseIn` and the `duration*0.034/2`
  conversion are hardware timing and floating point. The distance is a
  parameter of `GetData` and is assumed to be non-negative. `pulseIn`'s
  timeout and the no-echo case are not modelled.
- `setPin` and `pinMode`: the pins are stored and the pin modes are not modelled.
- `Serial.print` output is not modelled. `beSmart` echoes every incoming
  message on Serial (cpp:68-69) and prints the "cannot convert" line for an
  ignored message only under `debug` (cpp:96-101); neither is modelled.
- Arduino `String` is a C string underneath: `strchr`, `strcmp` and `atol`
  stop at an embedded `'\0'`, which a Dafny `string` does not. Text the hub
  sends holds no `'\0'`.
- A `String` concatenation whose allocation fails (`settingsString + ' '`,
  cpp:148) silently leaves an invalid `String`. The model has unbounded
  memory and does not capture this.
- The `PollingSensor` base class is not modelled. Its name, interval and
  offset handling, and its own polling schedule are not part of the model.
  `setInterval` is only recorded as a call.
- `millis()` is a parameter of `GetData`.
- DistanceText: `String(float)` is modelled on an exact real rounded half up
  to two decimals. The float's own binary rounding is not modelled.
- ToInt: `atol` is modelled on unbounded integers, so an overflowing
  `long` is not modelled.
- IntervalMillis: states the product only when `stInterval * 1000` fits in
  32 bits. The wrapped value is only constrained to 32 bits.
- `unsigned int` is taken to be 32 bits, as on the ARM and ESP boards. The
  16-bit `unsigned int` of AVR boards is not modelled.
- The string operations accept text of up to `UINT_MAX` characters, the
  largest length an `unsigned int` can hold. `ParseSettings` requires fewer
  than `UINT_MAX`, because the `settingsString + ' '` it builds must still
  fit.
- Stoplight: the distance and the thresholds are compared as exact reals. In
  the source a `float` is compared with a `long` threshold, which is
  converted to `float` first and is rounded above 2^24. That rounding is not
  modelled.
- The unused `myPair` local of `parseSettings` (cpp:149) is not modelled.
- The destructor is empty and is not modelled.
- The messages the framework sends and the execution context that calls the
  sensor are not modelled. The model covers one sensor and no concurrency.
