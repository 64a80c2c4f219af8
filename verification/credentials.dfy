/** The credential checks: the four-field check every tool runs before it
    touches OSS (`_validate_credentials` in the tools) and the provider's
    `_validate_credentials`, which adds leading-character rules for the
    optional `directory` and `filename` values, lists one object as a remote
    probe and turns OSS status codes into messages.
 */
module Credentials {
  import opened Results
  import opened Text

  /** The credential values a tool reads; a missing key and an empty value are
      both falsy to the checks, so each is an optional string. `useHttps` is
      the optional `use_https` entry the single-file upload consults. */
  datatype Creds = Creds(
    endpoint: Option<string>, bucket: Option<string>,
    accessKeyId: Option<string>, accessKeySecret: Option<string>,
    directory: Option<string>, filename: Option<string>,
    useHttps: Option<bool>)

  datatype Field = Endpoint | Bucket | AccessKeyId | AccessKeySecret

  /** The credential key of a field, as the error messages spell it. */
  function Name(f: Field): string {
    match f
    case Endpoint => "endpoint"
    case Bucket => "bucket"
    case AccessKeyId => "access_key_id"
    case AccessKeySecret => "access_key_secret"
  }

  function Get(c: Creds, f: Field): Option<string> {
    match f
    case Endpoint => c.endpoint
    case Bucket => c.bucket
    case AccessKeyId => c.accessKeyId
    case AccessKeySecret => c.accessKeySecret
  }

  /** `credentials.get(field)` is truthy. */
  predicate Present(c: Creds, f: Field) {
    Truthy(Get(c, f))
  }

  /** The order the tools check the fields in. */
  const ToolOrder: seq<Field> := [Endpoint, Bucket, AccessKeyId, AccessKeySecret]

  /** The order the provider checks the fields in. */
  const ProviderOrder: seq<Field> := [AccessKeyId, AccessKeySecret, Endpoint, Bucket]

  /** The position of the first field of `order` that is not present, or
      `|order|` when all are. */
  function FirstMissing(c: Creds, order: seq<Field>): (i: nat)
    ensures i <= |order|
    ensures forall k :: 0 <= k < i ==> Present(c, order[k])
    ensures i < |order| ==> !Present(c, order[i])
  {
    if order == [] then 0
    else if !Present(c, order[0]) then 0
    else 1 + FirstMissing(c, order[1..])
  }

  /** The four values a successful tool check guarantees. */
  datatype Account = Account(endpoint: string, bucket: string, accessKeyId: string, accessKeySecret: string)

  /** A tool's `_validate_credentials`: the first missing field in tool order
      is reported; otherwise the four values are available. */
  function CheckTool(c: Creds): (r: Result<Account>)
    ensures r.Ok? <==> forall k :: 0 <= k < |ToolOrder| ==> Present(c, ToolOrder[k])
    ensures r.Ok? ==> c.endpoint == Some(r.value.endpoint) && c.bucket == Some(r.value.bucket)
    ensures r.Ok? ==> c.accessKeyId == Some(r.value.accessKeyId) && c.accessKeySecret == Some(r.value.accessKeySecret)
    ensures r.Ok? ==> r.value.endpoint != "" && r.value.bucket != ""
    ensures r.Ok? ==> r.value.accessKeyId != "" && r.value.accessKeySecret != ""
  {
    var i := FirstMissing(c, ToolOrder);
    if i < |ToolOrder| then Err("Missing required credential: " + Name(ToolOrder[i]))
    else
      assert Present(c, ToolOrder[0]) && Present(c, ToolOrder[1]);
      assert Present(c, ToolOrder[2]) && Present(c, ToolOrder[3]);
      Ok(Account(c.endpoint.value, c.bucket.value, c.accessKeyId.value, c.accessKeySecret.value))
  }

  /** The field a failed tool check names is the first one, in tool order,
      that is missing. */
  lemma CheckToolNamesFirstMissing(c: Creds, k: nat)
    requires k < |ToolOrder| && !Present(c, ToolOrder[k])
    requires forall j :: 0 <= j < k ==> Present(c, ToolOrder[j])
    ensures CheckTool(c) == Err("Missing required credential: " + Name(ToolOrder[k]))
  {
    var i := FirstMissing(c, ToolOrder);
    assert i == k;
  }

  // ---------------------------------------------------------------------------
  // The provider check

  /** What the remote probe `list_objects(max_keys=1)` does: succeed, raise an
      `OssError` with an HTTP status and a message, or raise anything else. */
  datatype Probe = Listed | OssFailure(status: int, detail: string) | OtherFailure(detail: string)

  /** A non-empty value that starts with a space, `/` or `\`. */
  predicate BadLead(v: Option<string>) {
    Truthy(v) && (StartsWith(v.value, " ") || StartsWith(v.value, "/") || StartsWith(v.value, "\\"))
  }

  const UnknownPrefix: string := "凭据验证发生未知错误: "
  const DirectoryRule: string := "directory不能以空格、/或\\开头"
  const FilenameRule: string := "filename不能以空格、/或\\开头"

  /** The checks the provider runs before it contacts OSS, in their order. */
  function LocalCheck(c: Creds): (r: Outcome)
    ensures r == Pass <==>
      (forall k :: 0 <= k < |ProviderOrder| ==> Present(c, ProviderOrder[k]))
      && !BadLead(c.directory) && !BadLead(c.filename)
  {
    var i := FirstMissing(c, ProviderOrder);
    if i < |ProviderOrder| then Fail(Name(ProviderOrder[i]) + " 不能为空")
    else if BadLead(c.directory) then Fail(DirectoryRule)
    else if BadLead(c.filename) then Fail(FilenameRule)
    else Pass
  }

  /** The message the `OssError` handler raises for a status code. */
  function StatusMessage(status: int, detail: string, bucket: string): string {
    if status == 403 then "无效的Access Key ID或Secret Access Key。详情: " + detail
    else if status == 404 then "Bucket '" + bucket + "' 不存在或 Endpoint 错误"
    else if status == 401 then "认证失败: AccessKey ID 或 Secret 错误"
    else "OSS验证失败 [" + IntText(status) + "]: " + detail
  }

  /** The provider's `_validate_credentials`. A local check raises inside the
      `try`, so the catch-all handler re-wraps it with the unknown-error
      prefix; the `OssError` handler's messages are raised from a handler and
      reach the caller as they are. */
  function ValidateProvider(c: Creds, probe: Probe): (r: Outcome)
    ensures r == Pass <==> LocalCheck(c) == Pass && probe == Listed
  {
    match LocalCheck(c)
    case Fail(m) => Fail(UnknownPrefix + m)
    case Pass =>
      assert Present(c, ProviderOrder[3]);
      match probe
      case Listed => Pass
      case OssFailure(status, detail) => Fail(StatusMessage(status, detail, c.bucket.value))
      case OtherFailure(detail) => Fail(UnknownPrefix + detail)
  }

  /** A failed local check decides the outcome before OSS is contacted: the
      probe's result does not matter. */
  lemma LocalFailureIgnoresProbe(c: Creds, p: Probe, q: Probe)
    requires LocalCheck(c) != Pass
    ensures ValidateProvider(c, p) == ValidateProvider(c, q)
    ensures ValidateProvider(c, p).Fail? && StartsWith(ValidateProvider(c, p).message, UnknownPrefix)
  {
    var m := LocalCheck(c).message;
    assert (UnknownPrefix + m)[..|UnknownPrefix|] == UnknownPrefix;
  }

  /** A missing field is reported, re-wrapped, as the first missing field in
      provider order, whatever else is wrong and whatever OSS would say. */
  lemma MissingFieldReported(c: Creds, k: nat, p: Probe)
    requires k < |ProviderOrder| && !Present(c, ProviderOrder[k])
    requires forall j :: 0 <= j < k ==> Present(c, ProviderOrder[j])
    ensures ValidateProvider(c, p) == Fail(UnknownPrefix + Name(ProviderOrder[k]) + " 不能为空")
  {
    var i := FirstMissing(c, ProviderOrder);
    assert i == k;
  }

  /** With the four fields present, a directory breaking the leading-character
      rule is reported before the filename rule and the probe. */
  lemma DirectoryRuleReported(c: Creds, p: Probe)
    requires forall k :: 0 <= k < |ProviderOrder| ==> Present(c, ProviderOrder[k])
    requires BadLead(c.directory)
    ensures ValidateProvider(c, p) == Fail(UnknownPrefix + DirectoryRule)
  {
  }

  /** With the fields present and an acceptable directory, a filename breaking
      the rule is reported before the probe. */
  lemma FilenameRuleReported(c: Creds, p: Probe)
    requires forall k :: 0 <= k < |ProviderOrder| ==> Present(c, ProviderOrder[k])
    requires !BadLead(c.directory) && BadLead(c.filename)
    ensures ValidateProvider(c, p) == Fail(UnknownPrefix + FilenameRule)
  {
  }

  /** An empty or absent directory and filename never trip the rules: only the
      fields and the probe decide. */
  lemma EmptyOptionalValuesAccepted(c: Creds, p: Probe)
    requires c.directory == None || c.directory == Some("")
    requires c.filename == None || c.filename == Some("")
    requires forall k :: 0 <= k < |ProviderOrder| ==> Present(c, ProviderOrder[k])
    ensures ValidateProvider(c, p) == Pass <==> p == Listed
  {
  }

  /** 403, 404 and 401 each get a message of their own, and every other status
      the generic one: no two of the four kinds can be confused. */
  lemma StatusMessagesDistinct(detail: string, bucket: string, other: int)
    requires other != 403 && other != 404 && other != 401
    ensures StatusMessage(403, detail, bucket)[0] == '无'
    ensures StatusMessage(404, detail, bucket)[0] == 'B'
    ensures StatusMessage(401, detail, bucket)[0] == '认'
    ensures StatusMessage(other, detail, bucket)[0] == 'O'
  {
  }

  /** The prefix tells where a failure came from: it is there exactly when a
      local check failed or the probe raised something other than `OssError`. */
  lemma UnknownPrefixMarksLocalOrOther(c: Creds, p: Probe)
    requires ValidateProvider(c, p).Fail?
    ensures StartsWith(ValidateProvider(c, p).message, UnknownPrefix)
        <==> LocalCheck(c) != Pass || p.OtherFailure?
  {
    var m := ValidateProvider(c, p).message;
    if LocalCheck(c) == Pass && p.OssFailure? {
      assert Present(c, ProviderOrder[3]);
      var s := StatusMessage(p.status, p.detail, c.bucket.value);
      assert m == s;
      StatusMessagesDistinct(p.detail, c.bucket.value, 0);
      if p.status == 403 || p.status == 404 || p.status == 401 {
      } else {
        StatusMessagesDistinct(p.detail, c.bucket.value, p.status);
      }
      assert s[0] != UnknownPrefix[0];
    } else if LocalCheck(c) != Pass {
      assert m == UnknownPrefix + LocalCheck(c).message;
      assert m[..|UnknownPrefix|] == UnknownPrefix;
    } else {
      assert m == UnknownPrefix + p.detail;
      assert m[..|UnknownPrefix|] == UnknownPrefix;
    }
  }
}
