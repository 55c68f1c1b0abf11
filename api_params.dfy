/** The firmware's connection parameters: the server's URLs (`ApiParams`)
    and the GPRS access point chosen from the operator's name
    (`APNSettings`), with the `AT+CSTT` credentials step that depends on
    it. */
module ConnectionParams {
  import opened Text

  // ------------------------------------------------------------- ApiParams

  datatype ApiParams = ApiParams(
    useHttps: bool,
    serverAddress: string,
    uploadEndpoint: string,
    settingsEndpoint: string,
    smsEndpoint: string)

  /** A freshly declared `ApiParams`: plain HTTP, no address yet, and the
      three endpoint paths. */
  const Defaults := ApiParams(false, "", "/upload", "/settings-flat", "/sms-receive")

  /** The paths the FastAPI service routes: the image upload, the flat
      settings and the SMS batch. */
  const UploadRoute := "/upload"
  const SettingsRoute := "/settings-flat"
  const SmsRoute := "/sms-receive"

  function Scheme(https: bool): string
  {
    if https then "https://" else "http://"
  }

  /** `baseUrl()`: the scheme chosen by `useHttps`, then the address. */
  function BaseUrl(p: ApiParams): (r: string)
    ensures |r| == |Scheme(p.useHttps)| + |p.serverAddress|
    ensures p.useHttps <==> |r| >= 8 && r[..8] == "https://"
    ensures r[|Scheme(p.useHttps)|..] == p.serverAddress
  {
    var url := Scheme(p.useHttps) + p.serverAddress;
    assert p.useHttps ==> url[..8] == "https://";
    assert !p.useHttps ==> url[4] == ':';
    url
  }

  function SettingsUrl(p: ApiParams): (r: string)
    ensures |r| == |BaseUrl(p)| + |p.settingsEndpoint| && r[..|BaseUrl(p)|] == BaseUrl(p)
    ensures EndpointRoutable(p, p.settingsEndpoint) ==> ParseUrl(r) == Some(Url(p.useHttps, p.serverAddress, p.settingsEndpoint))
  {
    EndpointUrl(p, p.settingsEndpoint)
  }

  function UploadUrl(p: ApiParams): (r: string)
    ensures |r| == |BaseUrl(p)| + |p.uploadEndpoint| && r[..|BaseUrl(p)|] == BaseUrl(p)
    ensures EndpointRoutable(p, p.uploadEndpoint) ==> ParseUrl(r) == Some(Url(p.useHttps, p.serverAddress, p.uploadEndpoint))
  {
    EndpointUrl(p, p.uploadEndpoint)
  }

  function SmsUrl(p: ApiParams): (r: string)
    ensures |r| == |BaseUrl(p)| + |p.smsEndpoint| && r[..|BaseUrl(p)|] == BaseUrl(p)
    ensures EndpointRoutable(p, p.smsEndpoint) ==> ParseUrl(r) == Some(Url(p.useHttps, p.serverAddress, p.smsEndpoint))
  {
    EndpointUrl(p, p.smsEndpoint)
  }

  /** A URL as a server reads it: the scheme, the host up to the first
      `/`, and the path from there on; None without an http or https
      scheme. */
  datatype Url = Url(https: bool, host: string, path: string)

  function ParseUrl(u: string): (r: Option<Url>)
    ensures r.Some? ==> Scheme(r.value.https) + r.value.host + r.value.path == u
    ensures r.Some? ==> '/' !in r.value.host && (r.value.path == [] || r.value.path[0] == '/')
  {
    if |u| >= 8 && u[..8] == "https://" then Some(HostAndPath(true, u[8..]))
    else if |u| >= 7 && u[..7] == "http://" then Some(HostAndPath(false, u[7..]))
    else None
  }

  function HostAndPath(https: bool, rest: string): (r: Url)
    ensures r.https == https && r.host + r.path == rest
    ensures '/' !in r.host && (r.path == [] || r.path[0] == '/')
  {
    var k := FirstIndexOf(rest, '/');
    assert rest[..k] + rest[k..] == rest;
    Url(https, rest[..k], rest[k..])
  }

  /** An address without `/` and an endpoint that starts with one. */
  predicate EndpointRoutable(p: ApiParams, endpoint: string)
  {
    '/' !in p.serverAddress && endpoint != [] && endpoint[0] == '/'
  }

  /** The URL of one endpoint: `baseUrl()` then the endpoint. */
  function EndpointUrl(p: ApiParams, endpoint: string): (r: string)
    ensures |r| == |BaseUrl(p)| + |endpoint| && r[..|BaseUrl(p)|] == BaseUrl(p)
    ensures EndpointRoutable(p, endpoint) ==> ParseUrl(r) == Some(Url(p.useHttps, p.serverAddress, endpoint))
  {
    var url := BaseUrl(p) + endpoint;
    assert url[..|BaseUrl(p)|] == BaseUrl(p);
    if EndpointRoutable(p, endpoint) then
      UrlRoundTrip(p, endpoint);
      url
    else
      url
  }

  /** Any URL the firmware builds reads back as its scheme, the server's
      address and the endpoint, when the address holds no `/` and the
      endpoint starts with one. */
  lemma UrlRoundTrip(p: ApiParams, endpoint: string)
    requires '/' !in p.serverAddress && endpoint != [] && endpoint[0] == '/'
    ensures ParseUrl(BaseUrl(p) + endpoint) == Some(Url(p.useHttps, p.serverAddress, endpoint))
  {
    var rest := p.serverAddress + endpoint;
    AppendAssoc(Scheme(p.useHttps), p.serverAddress, endpoint);
    SchemeRead(p.useHttps, rest);
    HostPathAt(rest, p.serverAddress, endpoint);
  }

  /** The scheme in front of a text is read back as written. */
  lemma SchemeRead(https: bool, rest: string)
    ensures ParseUrl(Scheme(https) + rest) == Some(HostAndPath(https, rest))
  {
    var s := Scheme(https);
    var u := s + rest;
    assert u[..|s|] == s && u[|s|..] == rest;
    if !https {
      assert u[4] == ':';
    }
  }

  lemma HostPathAt(rest: string, host: string, path: string)
    requires rest == host + path && '/' !in host && path != [] && path[0] == '/'
    ensures FirstIndexOf(rest, '/') == |host|
    ensures rest[..|host|] == host && rest[|host|..] == path
  {
    assert rest[|host|] == '/';
    assert forall j :: 0 <= j < |host| ==> rest[j] == host[j];
  }

  /** With the default endpoints every URL lands on the route the server
      serves for it, whatever the scheme and address. */
  lemma DefaultsReachRoutes(https: bool, address: string)
    requires '/' !in address
    ensures var p := Defaults.(useHttps := https, serverAddress := address);
      && ParseUrl(SettingsUrl(p)) == Some(Url(https, address, SettingsRoute))
      && ParseUrl(UploadUrl(p)) == Some(Url(https, address, UploadRoute))
      && ParseUrl(SmsUrl(p)) == Some(Url(https, address, SmsRoute))
  {
    var p := Defaults.(useHttps := https, serverAddress := address);
    UrlRoundTrip(p, SettingsRoute);
    UrlRoundTrip(p, UploadRoute);
    UrlRoundTrip(p, SmsRoute);
  }

  // ----------------------------------------------------------- APNSettings

  datatype APNSettings = APNSettings(apn: string, username: string, password: string)

  /** `getAPNSettings`: the access point of three Russian operators, by
      exact name; any other name gets the generic `internet` access point
      (the firmware logs it as unknown). Only MTS needs credentials. */
  function GetAPNSettings(networkOperator: string): (s: APNSettings)
    ensures s.apn != []
    ensures s.username == s.password
    ensures s.username != [] <==> networkOperator == "MTS"
  {
    if networkOperator == "MegaFon" then APNSettings("internet", "", "")
    else if networkOperator == "MOTIV" then APNSettings("internet.tele2.ru", "", "")
    else if networkOperator == "MTS" then APNSettings("internet.mts.ru", "mts", "mts")
    else APNSettings("internet", "", "")
  }

  /** An operator the firmware does not know is treated as MegaFon. */
  lemma UnknownOperatorIsMegaFon(networkOperator: string)
    requires networkOperator !in {"MegaFon", "MOTIV", "MTS"}
    ensures GetAPNSettings(networkOperator) == GetAPNSettings("MegaFon")
  {
  }

  /** The credentials step of the GPRS set-up: `AT+CSTT` with the access
      point, user name and password, sent only when there is a user
      name. */
  function CredentialsCommand(s: APNSettings): (r: Option<string>)
    ensures r.Some? <==> s.username != []
  {
    if |s.username| > 0 then
      Some("AT+CSTT=\"" + s.apn + "\",\"" + s.username + "\",\"" + s.password + "\"")
    else None
  }

  /** Only an MTS SIM card gets the `AT+CSTT` step, and it carries the
      MTS access point and credentials. */
  lemma CredentialsOnlyForMts(networkOperator: string)
    ensures CredentialsCommand(GetAPNSettings(networkOperator)).Some? <==> networkOperator == "MTS"
    ensures networkOperator == "MTS" ==>
      CredentialsCommand(GetAPNSettings(networkOperator)) == Some("AT+CSTT=\"internet.mts.ru\",\"mts\",\"mts\"")
  {
    if networkOperator == "MTS" {
      var s := GetAPNSettings(networkOperator);
      assert s == APNSettings("internet.mts.ru", "mts", "mts");
      assert "AT+CSTT=\"" + s.apn + "\",\"" + s.username + "\",\"" + s.password + "\""
        == "AT+CSTT=\"internet.mts.ru\",\"mts\",\"mts\"";
    }
  }
}
