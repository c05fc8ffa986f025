/**
 * The request `OnAlarm` sends to the Vera home controller: it sets the
 * `Tripped` variable of the camera's motion sensor device to 1 (motion
 * detected) or 0 (motion stopped).
 */
module Notifier {
  import opened Wrappers

  /** The controller's HTTP data request endpoint, port 3480. */
  const RequestPath: string := ":3480/data_request?id=variableset&DeviceNum="
  /** The security sensor service of the device. */
  const SensorService: string := "urn:micasaverde-com:serviceId:SecuritySensor1"
  /** The sensor service and the variable being set. */
  const SensorVariable: string := "&serviceId=" + SensorService + "&Variable=Tripped&Value="

  /** The URL for controller `vera`, sensor device `device`, and the new `Tripped` value. */
  function VeraUrl(vera: string, device: string, tripped: bool): string
  {
    "http://" + vera + RequestPath + device + SensorVariable + (if tripped then "1" else "0")
  }

  /** The `Tripped` value a URL sets, read back from its last character. */
  function TrippedOf(url: string): (r: Option<bool>)
    ensures r.Some? ==> url != [] && url[|url| - 1] in "01"
  {
    if url == [] then None
    else if url[|url| - 1] == '1' then Some(true)
    else if url[|url| - 1] == '0' then Some(false)
    else None
  }

  /** The value a URL sets is the one it was built with. */
  lemma UrlRoundTrip(vera: string, device: string, tripped: bool)
    ensures TrippedOf(VeraUrl(vera, device, tripped)) == Some(tripped)
  {
  }

  /**
   * The URLs for "tripped" and "cleared" address the same device on the
   * same controller: they differ in their last character only.
   */
  lemma UrlsDifferInValue(vera: string, device: string)
    ensures var on := VeraUrl(vera, device, true);
      var off := VeraUrl(vera, device, false);
      |on| == |off| && on[..|on| - 1] == off[..|off| - 1] && on != off
  {
    var base := "http://" + vera + RequestPath + device + SensorVariable;
    assert VeraUrl(vera, device, true) == base + "1";
    assert VeraUrl(vera, device, false) == base + "0";
    assert (base + "1")[..|base|] == base == (base + "0")[..|base|];
    assert (base + "1")[|base|] != (base + "0")[|base|];
  }

  /** The request goes over plain HTTP to the controller named in the configuration. */
  lemma UrlAddressesController(vera: string, device: string, tripped: bool)
    ensures "http://" + vera + ":" <= VeraUrl(vera, device, tripped)
  {
    var url := VeraUrl(vera, device, tripped);
    var head := "http://" + vera;
    assert url == head + (RequestPath + device + SensorVariable + (if tripped then "1" else "0"));
    assert url[|head|] == RequestPath[0] == ':';
    assert url[..|head| + 1] == head + ":";
  }

  /**
   * The request names the configured sensor device: the device number
   * follows `DeviceNum=` and ends at the next `&`.
   */
  lemma UrlAddressesDevice(vera: string, device: string, tripped: bool)
    ensures "http://" + vera + RequestPath + device + "&" <= VeraUrl(vera, device, tripped)
  {
    var url := VeraUrl(vera, device, tripped);
    var head := "http://" + vera + RequestPath + device;
    assert url == head + (SensorVariable + (if tripped then "1" else "0"));
    assert url[|head|] == SensorVariable[0] == '&';
    assert url[..|head| + 1] == head + "&";
  }
}
