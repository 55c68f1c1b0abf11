/** The device settings of the firmware: the settings struct and its
    defaults, the flat-JSON key scanner that `parseCameraSettings` applies
    to the server's `/settings-flat` reply, and the copy of the settings
    kept in RTC memory across deep sleep. */
module DeviceConfig {
  import opened Text
  import opened ArduinoString
  import opened DeviceJson

  /** `DeviceSettings` of deviceSettings.h, field for field. */
  datatype DeviceSettings = DeviceSettings(
    timeToSleepMinutes: int,
    flashDelay: int,
    photoCount: int,
    photoDelay: int,
    returnSms: bool,
    deleteSmsAfterSend: bool,
    smsReadMode: string,
    batchSms: int,
    sim800StartDelaySec: int,
    sim800TransportDelay: int,
    sim800PostDelay: int,
    maxRetriesToSendImage: int,
    numReadingsVoltage: int,
    totalDurationSecVoltage: int,
    numReadingsDHT: int,
    totalDurationSecDHT: int,
    framesize: int,
    pixelFormat: int,
    quality: int,
    brightness: int,
    contrast: int,
    saturation: int,
    aec: bool,
    aec2: bool,
    aeLevel: int,
    aecValue: int,
    agc: bool,
    agcGain: int,
    gainCeiling: int,
    awb: bool,
    awbGain: bool,
    wbMode: int,
    bpc: bool,
    wpc: bool,
    rawGma: bool,
    lensCorrection: bool,
    dcw: bool,
    specialEffect: int,
    hmirror: bool,
    vflip: bool,
    bankSelFix: bool,
    clockSpeedFix: bool,
    hrefFix: bool,
    jpegQualityFix: bool,
    pinkTintFix: bool
  )

  /** The defaults of the struct's member initialisers, which
      `getDefaultSettings` returns. */
  const Defaults: DeviceSettings := DeviceSettings(
    timeToSleepMinutes := 30,
    flashDelay := 100,
    photoCount := 5,
    photoDelay := 100,
    returnSms := false,
    deleteSmsAfterSend := false,
    smsReadMode := "ALL",
    batchSms := 2,
    sim800StartDelaySec := 60,
    sim800TransportDelay := 15,
    sim800PostDelay := 1500,
    maxRetriesToSendImage := 3,
    numReadingsVoltage := 30,
    totalDurationSecVoltage := 3,
    numReadingsDHT := 30,
    totalDurationSecDHT := 3,
    framesize := 6,
    pixelFormat := 0,
    quality := 12,
    brightness := 0,
    contrast := 0,
    saturation := 0,
    aec := true,
    aec2 := false,
    aeLevel := 0,
    aecValue := 800,
    agc := true,
    agcGain := 20,
    gainCeiling := 1,
    awb := false,
    awbGain := false,
    wbMode := 4,
    bpc := true,
    wpc := true,
    rawGma := true,
    lensCorrection := false,
    dcw := true,
    specialEffect := 0,
    hmirror := false,
    vflip := false,
    bankSelFix := true,
    clockSpeedFix := true,
    hrefFix := true,
    jpegQualityFix := true,
    pinkTintFix := true
  )

  // ------------------------------------------------ parseCameraSettings

  /** What the look-ups of the Device_* keys (general, photo capture, network and SMS settings) make of the settings. */
  function DeviceKeysApplied(json: string, s: DeviceSettings): DeviceSettings
  {
    s.(
      timeToSleepMinutes := UpdateInt(json, "\"Device_General_timeToSleepMinutes\":", s.timeToSleepMinutes),
      flashDelay := UpdateInt(json, "\"Device_PhotoCapture_flashDelay\":", s.flashDelay),
      photoCount := UpdateInt(json, "\"Device_PhotoCapture_photoCount\":", s.photoCount),
      photoDelay := UpdateInt(json, "\"Device_PhotoCapture_photoDelay\":", s.photoDelay),
      sim800StartDelaySec := UpdateInt(json, "\"Device_Network_sim800StartDelaySec\":", s.sim800StartDelaySec),
      sim800TransportDelay := UpdateInt(json, "\"Device_Network_sim800TransportDelay\":", s.sim800TransportDelay),
      sim800PostDelay := UpdateInt(json, "\"Device_Network_sim800PostDelay\":", s.sim800PostDelay),
      maxRetriesToSendImage := UpdateInt(json, "\"Device_Network_maxRetriesToSendImage\":", s.maxRetriesToSendImage),
      returnSms := UpdateBool(json, "\"Device_SendSMS_returnSms\":", s.returnSms),
      deleteSmsAfterSend := UpdateBool(json, "\"Device_SendSMS_deleteSmsAfterSend\":", s.deleteSmsAfterSend),
      smsReadMode := UpdateStringAsWritten(json, "\"Device_SendSMS_smsReadMode\":", s.smsReadMode),
      batchSms := UpdateInt(json, "\"Device_SendSMS_batchSms\":", s.batchSms)
    )
  }

  /** The look-ups of the Device_* keys (general, photo capture, network and SMS settings), in the firmware's order. */
  method ReadDeviceKeys(json: string, s: DeviceSettings) returns (u: DeviceSettings)
    ensures u == DeviceKeysApplied(json, s)
  {
    var timeToSleepMinutes := UpdateInt(json, "\"Device_General_timeToSleepMinutes\":", s.timeToSleepMinutes);
    var flashDelay := UpdateInt(json, "\"Device_PhotoCapture_flashDelay\":", s.flashDelay);
    var photoCount := UpdateInt(json, "\"Device_PhotoCapture_photoCount\":", s.photoCount);
    var photoDelay := UpdateInt(json, "\"Device_PhotoCapture_photoDelay\":", s.photoDelay);
    var sim800StartDelaySec := UpdateInt(json, "\"Device_Network_sim800StartDelaySec\":", s.sim800StartDelaySec);
    var sim800TransportDelay := UpdateInt(json, "\"Device_Network_sim800TransportDelay\":", s.sim800TransportDelay);
    var sim800PostDelay := UpdateInt(json, "\"Device_Network_sim800PostDelay\":", s.sim800PostDelay);
    var maxRetriesToSendImage := UpdateInt(json, "\"Device_Network_maxRetriesToSendImage\":", s.maxRetriesToSendImage);
    var returnSms := UpdateBool(json, "\"Device_SendSMS_returnSms\":", s.returnSms);
    var deleteSmsAfterSend := UpdateBool(json, "\"Device_SendSMS_deleteSmsAfterSend\":", s.deleteSmsAfterSend);
    var smsReadMode := UpdateStringAsWritten(json, "\"Device_SendSMS_smsReadMode\":", s.smsReadMode);
    var batchSms := UpdateInt(json, "\"Device_SendSMS_batchSms\":", s.batchSms);
    u := s.(timeToSleepMinutes := timeToSleepMinutes, flashDelay := flashDelay, photoCount := photoCount, photoDelay := photoDelay, sim800StartDelaySec := sim800StartDelaySec, sim800TransportDelay := sim800TransportDelay, sim800PostDelay := sim800PostDelay, maxRetriesToSendImage := maxRetriesToSendImage, returnSms := returnSms, deleteSmsAfterSend := deleteSmsAfterSend, smsReadMode := smsReadMode, batchSms := batchSms);
  }

  /** What the look-ups of the Sensors_DHT_* and Sensors_Voltage_* keys make of the settings. */
  function SensorKeysApplied(json: string, s: DeviceSettings): DeviceSettings
  {
    s.(
      numReadingsDHT := UpdateInt(json, "\"Sensors_DHT_numReadings\":", s.numReadingsDHT),
      totalDurationSecDHT := UpdateInt(json, "\"Sensors_DHT_totalDurationSec\":", s.totalDurationSecDHT),
      numReadingsVoltage := UpdateInt(json, "\"Sensors_Voltage_numReadings\":", s.numReadingsVoltage),
      totalDurationSecVoltage := UpdateInt(json, "\"Sensors_Voltage_totalDurationSec\":", s.totalDurationSecVoltage)
    )
  }

  /** The look-ups of the Sensors_DHT_* and Sensors_Voltage_* keys, in the firmware's order. */
  method ReadSensorKeys(json: string, s: DeviceSettings) returns (u: DeviceSettings)
    ensures u == SensorKeysApplied(json, s)
  {
    var numReadingsDHT := UpdateInt(json, "\"Sensors_DHT_numReadings\":", s.numReadingsDHT);
    var totalDurationSecDHT := UpdateInt(json, "\"Sensors_DHT_totalDurationSec\":", s.totalDurationSecDHT);
    var numReadingsVoltage := UpdateInt(json, "\"Sensors_Voltage_numReadings\":", s.numReadingsVoltage);
    var totalDurationSecVoltage := UpdateInt(json, "\"Sensors_Voltage_totalDurationSec\":", s.totalDurationSecVoltage);
    u := s.(numReadingsDHT := numReadingsDHT, totalDurationSecDHT := totalDurationSecDHT, numReadingsVoltage := numReadingsVoltage, totalDurationSecVoltage := totalDurationSecVoltage);
  }

  /** What the look-ups of the Camera_Capture_*, Camera_Exposure_* and Camera_Gain_* keys make of the settings. */
  function CaptureKeysApplied(json: string, s: DeviceSettings): DeviceSettings
  {
    s.(
      framesize := UpdateInt(json, "\"Camera_Capture_framesize\":", s.framesize),
      pixelFormat := UpdateInt(json, "\"Camera_Capture_pixelFormat\":", s.pixelFormat),
      quality := UpdateInt(json, "\"Camera_Capture_quality\":", s.quality),
      aeLevel := UpdateInt(json, "\"Camera_Exposure_aeLevel\":", s.aeLevel),
      aec := UpdateBool(json, "\"Camera_Exposure_aec\":", s.aec),
      aec2 := UpdateBool(json, "\"Camera_Exposure_aec2\":", s.aec2),
      aecValue := UpdateInt(json, "\"Camera_Exposure_aecValue\":", s.aecValue),
      agc := UpdateBool(json, "\"Camera_Gain_agc\":", s.agc),
      agcGain := UpdateInt(json, "\"Camera_Gain_agcGain\":", s.agcGain),
      gainCeiling := UpdateInt(json, "\"Camera_Gain_gainCeiling\":", s.gainCeiling)
    )
  }

  /** The look-ups of the Camera_Capture_*, Camera_Exposure_* and Camera_Gain_* keys, in the firmware's order. */
  method ReadCaptureKeys(json: string, s: DeviceSettings) returns (u: DeviceSettings)
    ensures u == CaptureKeysApplied(json, s)
  {
    var framesize := UpdateInt(json, "\"Camera_Capture_framesize\":", s.framesize);
    var pixelFormat := UpdateInt(json, "\"Camera_Capture_pixelFormat\":", s.pixelFormat);
    var quality := UpdateInt(json, "\"Camera_Capture_quality\":", s.quality);
    var aeLevel := UpdateInt(json, "\"Camera_Exposure_aeLevel\":", s.aeLevel);
    var aec := UpdateBool(json, "\"Camera_Exposure_aec\":", s.aec);
    var aec2 := UpdateBool(json, "\"Camera_Exposure_aec2\":", s.aec2);
    var aecValue := UpdateInt(json, "\"Camera_Exposure_aecValue\":", s.aecValue);
    var agc := UpdateBool(json, "\"Camera_Gain_agc\":", s.agc);
    var agcGain := UpdateInt(json, "\"Camera_Gain_agcGain\":", s.agcGain);
    var gainCeiling := UpdateInt(json, "\"Camera_Gain_gainCeiling\":", s.gainCeiling);
    u := s.(framesize := framesize, pixelFormat := pixelFormat, quality := quality, aeLevel := aeLevel, aec := aec, aec2 := aec2, aecValue := aecValue, agc := agc, agcGain := agcGain, gainCeiling := gainCeiling);
  }

  /** What the look-ups of the Camera_HardwareFixes_* keys make of the settings. */
  function FixKeysApplied(json: string, s: DeviceSettings): DeviceSettings
  {
    s.(
      bankSelFix := UpdateBool(json, "\"Camera_HardwareFixes_bankSelFix\":", s.bankSelFix),
      clockSpeedFix := UpdateBool(json, "\"Camera_HardwareFixes_clockSpeedFix\":", s.clockSpeedFix),
      hrefFix := UpdateBool(json, "\"Camera_HardwareFixes_hrefFix\":", s.hrefFix),
      jpegQualityFix := UpdateBool(json, "\"Camera_HardwareFixes_jpegQualityFix\":", s.jpegQualityFix),
      pinkTintFix := UpdateBool(json, "\"Camera_HardwareFixes_pinkTintFix\":", s.pinkTintFix)
    )
  }

  /** The look-ups of the Camera_HardwareFixes_* keys, in the firmware's order. */
  method ReadFixKeys(json: string, s: DeviceSettings) returns (u: DeviceSettings)
    ensures u == FixKeysApplied(json, s)
  {
    var bankSelFix := UpdateBool(json, "\"Camera_HardwareFixes_bankSelFix\":", s.bankSelFix);
    var clockSpeedFix := UpdateBool(json, "\"Camera_HardwareFixes_clockSpeedFix\":", s.clockSpeedFix);
    var hrefFix := UpdateBool(json, "\"Camera_HardwareFixes_hrefFix\":", s.hrefFix);
    var jpegQualityFix := UpdateBool(json, "\"Camera_HardwareFixes_jpegQualityFix\":", s.jpegQualityFix);
    var pinkTintFix := UpdateBool(json, "\"Camera_HardwareFixes_pinkTintFix\":", s.pinkTintFix);
    u := s.(bankSelFix := bankSelFix, clockSpeedFix := clockSpeedFix, hrefFix := hrefFix, jpegQualityFix := jpegQualityFix, pinkTintFix := pinkTintFix);
  }

  /** What the look-ups of the Camera_ImageAdjustment_* keys make of the settings. */
  function AdjustmentKeysApplied(json: string, s: DeviceSettings): DeviceSettings
  {
    s.(
      brightness := UpdateInt(json, "\"Camera_ImageAdjustment_brightness\":", s.brightness),
      contrast := UpdateInt(json, "\"Camera_ImageAdjustment_contrast\":", s.contrast),
      hmirror := UpdateBool(json, "\"Camera_ImageAdjustment_hmirror\":", s.hmirror),
      saturation := UpdateInt(json, "\"Camera_ImageAdjustment_saturation\":", s.saturation),
      specialEffect := UpdateInt(json, "\"Camera_ImageAdjustment_specialEffect\":", s.specialEffect),
      vflip := UpdateBool(json, "\"Camera_ImageAdjustment_vflip\":", s.vflip)
    )
  }

  /** The look-ups of the Camera_ImageAdjustment_* keys, in the firmware's order. */
  method ReadAdjustmentKeys(json: string, s: DeviceSettings) returns (u: DeviceSettings)
    ensures u == AdjustmentKeysApplied(json, s)
  {
    var brightness := UpdateInt(json, "\"Camera_ImageAdjustment_brightness\":", s.brightness);
    var contrast := UpdateInt(json, "\"Camera_ImageAdjustment_contrast\":", s.contrast);
    var hmirror := UpdateBool(json, "\"Camera_ImageAdjustment_hmirror\":", s.hmirror);
    var saturation := UpdateInt(json, "\"Camera_ImageAdjustment_saturation\":", s.saturation);
    var specialEffect := UpdateInt(json, "\"Camera_ImageAdjustment_specialEffect\":", s.specialEffect);
    var vflip := UpdateBool(json, "\"Camera_ImageAdjustment_vflip\":", s.vflip);
    u := s.(brightness := brightness, contrast := contrast, hmirror := hmirror, saturation := saturation, specialEffect := specialEffect, vflip := vflip);
  }

  /** What the look-ups of the Camera_ImageProcessing_* and Camera_WhiteBalance_* keys make of the settings. */
  function ProcessingKeysApplied(json: string, s: DeviceSettings): DeviceSettings
  {
    s.(
      bpc := UpdateBool(json, "\"Camera_ImageProcessing_bpc\":", s.bpc),
      dcw := UpdateBool(json, "\"Camera_ImageProcessing_dcw\":", s.dcw),
      lensCorrection := UpdateBool(json, "\"Camera_ImageProcessing_lensCorrection\":", s.lensCorrection),
      rawGma := UpdateBool(json, "\"Camera_ImageProcessing_rawGma\":", s.rawGma),
      wpc := UpdateBool(json, "\"Camera_ImageProcessing_wpc\":", s.wpc),
      awb := UpdateBool(json, "\"Camera_WhiteBalance_awb\":", s.awb),
      awbGain := UpdateBool(json, "\"Camera_WhiteBalance_awbGain\":", s.awbGain),
      wbMode := UpdateInt(json, "\"Camera_WhiteBalance_wbMode\":", s.wbMode)
    )
  }

  /** The look-ups of the Camera_ImageProcessing_* and Camera_WhiteBalance_* keys, in the firmware's order. */
  method ReadProcessingKeys(json: string, s: DeviceSettings) returns (u: DeviceSettings)
    ensures u == ProcessingKeysApplied(json, s)
  {
    var bpc := UpdateBool(json, "\"Camera_ImageProcessing_bpc\":", s.bpc);
    var dcw := UpdateBool(json, "\"Camera_ImageProcessing_dcw\":", s.dcw);
    var lensCorrection := UpdateBool(json, "\"Camera_ImageProcessing_lensCorrection\":", s.lensCorrection);
    var rawGma := UpdateBool(json, "\"Camera_ImageProcessing_rawGma\":", s.rawGma);
    var wpc := UpdateBool(json, "\"Camera_ImageProcessing_wpc\":", s.wpc);
    var awb := UpdateBool(json, "\"Camera_WhiteBalance_awb\":", s.awb);
    var awbGain := UpdateBool(json, "\"Camera_WhiteBalance_awbGain\":", s.awbGain);
    var wbMode := UpdateInt(json, "\"Camera_WhiteBalance_wbMode\":", s.wbMode);
    u := s.(bpc := bpc, dcw := dcw, lensCorrection := lensCorrection, rawGma := rawGma, wpc := wpc, awb := awb, awbGain := awbGain, wbMode := wbMode);
  }

  /** What parseCameraSettings makes of the settings: every field is looked
      up under its own key and replaced when the key occurs. */
  function Parsed(json: string, s: DeviceSettings): DeviceSettings
  {
    var device := DeviceKeysApplied(json, s);
    var sensors := SensorKeysApplied(json, device);
    var capture := CaptureKeysApplied(json, sensors);
    var fixes := FixKeysApplied(json, capture);
    var adjustment := AdjustmentKeysApplied(json, fixes);
    ProcessingKeysApplied(json, adjustment)
  }

  /** parseCameraSettings: the 45 key look-ups in the firmware's order; it
      always reports success. */
  method ParseCameraSettings(json: string, settings: DeviceSettings) returns (ok: bool, updated: DeviceSettings)
    ensures ok
    ensures updated == Parsed(json, settings)
  {
    updated := ReadDeviceKeys(json, settings);
    updated := ReadSensorKeys(json, updated);
    updated := ReadCaptureKeys(json, updated);
    updated := ReadFixKeys(json, updated);
    updated := ReadAdjustmentKeys(json, updated);
    updated := ReadProcessingKeys(json, updated);
    ok := true;
  }

  /** The sleep time after parsing is the integer the server wrote after
      the key's first occurrence. */
  lemma SleepMinutesRead(json: string, s: DeviceSettings, p: nat, n: int, tail: string)
    requires Fits(json) && IndexOf(json, "\"Device_General_timeToSleepMinutes\":", 0) == p
    requires json[p + |"\"Device_General_timeToSleepMinutes\":"|..] == IntToString(n) + tail
    requires tail == [] || !IsDigit(tail[0])
    ensures Parsed(json, s).timeToSleepMinutes == n
  {
    IntValueRead(json, "\"Device_General_timeToSleepMinutes\":", p, n, tail, s.timeToSleepMinutes);
  }

  /** The SMS read mode after parsing is the quoted text the server wrote
      after the key's first occurrence when that text is not empty; an empty
      text is misread: the firmware takes the closing quote for the opening
      one and reads on to the next quote in the reply, or keeps the old
      mode when there is none. */
  lemma SmsReadModeRead(json: string, s: DeviceSettings, p: nat, v: string, tail: string)
    requires Fits(json) && IndexOf(json, "\"Device_SendSMS_smsReadMode\":", 0) == p
    requires json[p + |"\"Device_SendSMS_smsReadMode\":"|..] == "\"" + v + "\"" + tail
    requires '"' !in v
    ensures v != "" ==> Parsed(json, s).smsReadMode == v
    ensures v == "" ==>
      Parsed(json, s).smsReadMode == if '"' in tail then "\"" + tail[..FirstIndexOf(tail, '"')] else s.smsReadMode
  {
    ParsedSmsReadMode(json, s);
    QuotedValueAsWritten(json, "\"Device_SendSMS_smsReadMode\":", p, v, tail, s.smsReadMode);
  }

  /** Only the look-up of its own key sets the SMS read mode. */
  lemma ParsedSmsReadMode(json: string, s: DeviceSettings)
    ensures Parsed(json, s).smsReadMode == UpdateStringAsWritten(json, "\"Device_SendSMS_smsReadMode\":", s.smsReadMode)
  {
  }

  /** The parse the firmware evidently intends: the same look-ups, with the
      closing quote of the SMS read mode searched from the first character
      of the value. */
  function ParsedIntended(json: string, s: DeviceSettings): DeviceSettings
  {
    Parsed(json, s).(smsReadMode := UpdateString(json, "\"Device_SendSMS_smsReadMode\":", s.smsReadMode))
  }

  /** With the intended scan every quoted read mode is read as written, the
      empty one included... */
  lemma SmsReadModeIntended(json: string, s: DeviceSettings, p: nat, v: string, tail: string)
    requires Fits(json) && IndexOf(json, "\"Device_SendSMS_smsReadMode\":", 0) == p
    requires json[p + |"\"Device_SendSMS_smsReadMode\":"|..] == "\"" + v + "\"" + tail
    requires '"' !in v
    ensures ParsedIntended(json, s).smsReadMode == v
  {
    StringValueRead(json, "\"Device_SendSMS_smsReadMode\":", p, v, tail, s.smsReadMode);
  }

  /** ...and the two parses differ only on an empty one. */
  lemma IntendedAgreesOnText(json: string, s: DeviceSettings, p: nat, v: string, tail: string)
    requires Fits(json) && IndexOf(json, "\"Device_SendSMS_smsReadMode\":", 0) == p
    requires json[p + |"\"Device_SendSMS_smsReadMode\":"|..] == "\"" + v + "\"" + tail
    requires '"' !in v && v != ""
    ensures ParsedIntended(json, s) == Parsed(json, s)
  {
    var key := "\"Device_SendSMS_smsReadMode\":";
    var parsed := Parsed(json, s);
    ParsedSmsReadMode(json, s);
    StringValueRead(json, key, p, v, tail, s.smsReadMode);
    SameModeUnchanged(parsed, UpdateString(json, key, s.smsReadMode));
  }

  lemma SameModeUnchanged(d: DeviceSettings, mode: string)
    requires mode == d.smsReadMode
    ensures d.(smsReadMode := mode) == d
  {
  }

  /** A reply without a JSON object extracts to the empty text, and parsing
      that leaves every setting as it was. */
  lemma EmptyReplyKeepsSettings(reply: string, s: DeviceSettings)
    requires '{' !in reply || '}' !in reply
    ensures ExtractJson(reply) == "" && Parsed(ExtractJson(reply), s) == s
  {
    assert ExtractJson(reply) == "";
    DeviceKeysEmpty(s);
    SensorKeysEmpty(s);
    CaptureKeysEmpty(s);
    FixKeysEmpty(s);
    AdjustmentKeysEmpty(s);
    ProcessingKeysEmpty(s);
  }

  /** No Device key occurs in the empty reply. */
  lemma DeviceKeysEmpty(s: DeviceSettings)
    ensures DeviceKeysApplied("", s) == s
  {
    NothingInEmpty();
  }

  /** No Sensor key occurs in the empty reply. */
  lemma SensorKeysEmpty(s: DeviceSettings)
    ensures SensorKeysApplied("", s) == s
  {
    NothingInEmpty();
  }

  /** No Capture key occurs in the empty reply. */
  lemma CaptureKeysEmpty(s: DeviceSettings)
    ensures CaptureKeysApplied("", s) == s
  {
    NothingInEmpty();
  }

  /** No Fix key occurs in the empty reply. */
  lemma FixKeysEmpty(s: DeviceSettings)
    ensures FixKeysApplied("", s) == s
  {
    NothingInEmpty();
  }

  /** No Adjustment key occurs in the empty reply. */
  lemma AdjustmentKeysEmpty(s: DeviceSettings)
    ensures AdjustmentKeysApplied("", s) == s
  {
    NothingInEmpty();
  }

  /** No Processing key occurs in the empty reply. */
  lemma ProcessingKeysEmpty(s: DeviceSettings)
    ensures ProcessingKeysApplied("", s) == s
  {
    NothingInEmpty();
  }

  /** No key occurs in the empty text. */
  lemma NothingInEmpty()
    ensures forall key, i :: UpdateInt("", key, i) == i
    ensures forall key, b :: UpdateBool("", key, b) == b
    ensures forall key, t :: UpdateStringAsWritten("", key, t) == t
  {
  }

  // ------------------------------------------------------- RTC memory

  /** The firmware's settings globals: the working copy `deviceSettings`,
      and in RTC memory the copy `rtcDeviceSettings` with its
      `rtcInitialized` flag, meant to be kept across deep sleep. */
  class SettingsStore {
    var deviceSettings: DeviceSettings
    var rtcDeviceSettings: DeviceSettings
    var rtcInitialized: bool

    /** The globals at every start, a cold start or a wake from deep sleep.
        `rtcDeviceSettings` is of a struct with a `String` member and default
        member initialisers, so it has no constant initialiser: the C++
        start-up code runs its constructor at every start and it holds the
        defaults again. Only `rtcInitialized`, constant-initialised, keeps in
        RTC memory what it held before deep sleep (false on a cold start).
        The working copy has the defaults of the struct. */
    constructor (initialized: bool)
      ensures deviceSettings == Defaults && rtcDeviceSettings == Defaults
      ensures rtcInitialized == initialized
    {
      deviceSettings := Defaults;
      rtcDeviceSettings := Defaults;
      rtcInitialized := initialized;
    }

    /** The globals at start as intended: RTC memory gives back the copy it
        held before deep sleep, as it would for a struct it keeps untouched. */
    constructor Retaining(retained: DeviceSettings, initialized: bool)
      ensures deviceSettings == Defaults
      ensures rtcDeviceSettings == retained && rtcInitialized == initialized
    {
      deviceSettings := Defaults;
      rtcDeviceSettings := retained;
      rtcInitialized := initialized;
    }

    /** initRTCSettings: with the flag clear (a cold start) it writes the
        defaults to the RTC copy and sets the flag; with the flag set it
        changes nothing. */
    method InitRTCSettings()
      modifies this
      ensures rtcInitialized
      ensures rtcDeviceSettings == if old(rtcInitialized) then old(rtcDeviceSettings) else Defaults
      ensures deviceSettings == old(deviceSettings)
    {
      if !rtcInitialized {
        rtcDeviceSettings := GetDefaultSettings();
        rtcInitialized := true;
      }
    }

    /** saveSettingsToRTC: the RTC copy becomes the given settings. */
    method SaveSettingsToRTC(settings: DeviceSettings) returns (ok: bool)
      modifies this
      ensures ok
      ensures rtcDeviceSettings == settings
      ensures deviceSettings == old(deviceSettings) && rtcInitialized == old(rtcInitialized)
    {
      rtcDeviceSettings := settings;
      ok := true;
    }

    /** loadSettingsFromRTC: fails on a null target (None), otherwise fills
        the target with the RTC copy. */
    method LoadSettingsFromRTC(target: Option<DeviceSettings>) returns (ok: bool, loaded: Option<DeviceSettings>)
      ensures ok <==> target.Some?
      ensures ok ==> loaded == Some(rtcDeviceSettings)
      ensures !ok ==> loaded == None
    {
      if target.None? {
        return false, None;
      }
      ok, loaded := true, Some(rtcDeviceSettings);
    }

    /** getCurrentSettings: the load into a local always succeeds, so the
        result is the RTC copy and the defaults fallback is never taken. */
    method GetCurrentSettings() returns (settings: DeviceSettings)
      ensures settings == rtcDeviceSettings
    {
      settings := GetDefaultSettings();
      var ok, loaded := LoadSettingsFromRTC(Some(settings));
      if !ok {
        settings := GetDefaultSettings();
      } else {
        settings := loaded.value;
      }
    }

    /** initDeviceSettings: after it the working copy is the RTC copy, which
        is the defaults when the flag was clear and is otherwise left as the
        start found it. */
    method InitDeviceSettings()
      modifies this
      ensures rtcInitialized && deviceSettings == rtcDeviceSettings
      ensures rtcDeviceSettings == if old(rtcInitialized) then old(rtcDeviceSettings) else Defaults
    {
      InitRTCSettings();
      deviceSettings := GetCurrentSettings();
    }
  }

  /** getDefaultSettings */
  function GetDefaultSettings(): (s: DeviceSettings)
    ensures s.smsReadMode == "ALL" && s.timeToSleepMinutes == 30 && s.batchSms == 2
  {
    Defaults
  }

  /** As written: the settings saved to RTC memory before deep sleep are
      lost at the wake-up, which re-constructs the RTC copy to the defaults
      while the set flag keeps initRTCSettings from doing anything; the
      settings in use after the wake are the defaults. */
  method SaveSleepWake(settings: DeviceSettings) returns (afterWake: DeviceSettings)
    ensures afterWake == Defaults
    ensures settings != Defaults ==> afterWake != settings
  {
    var before := new SettingsStore(false);
    before.InitDeviceSettings();
    var _ := before.SaveSettingsToRTC(settings);
    var after := new SettingsStore(before.rtcInitialized);
    after.InitDeviceSettings();
    afterWake := after.deviceSettings;
  }

  /** As intended: with an RTC copy that survives deep sleep, the settings
      saved before it are the settings in use after the wake-up. */
  method SaveSleepWakeIntended(settings: DeviceSettings) returns (afterWake: DeviceSettings)
    ensures afterWake == settings
  {
    var before := new SettingsStore.Retaining(Defaults, false);
    before.InitDeviceSettings();
    var _ := before.SaveSettingsToRTC(settings);
    var after := new SettingsStore.Retaining(before.rtcDeviceSettings, before.rtcInitialized);
    after.InitDeviceSettings();
    afterWake := after.deviceSettings;
  }
}
