/**
 * The message-queue endpoint's gate (`MqController.inputGetHandler`): a request is
 * forwarded to the bus, with status 200, only when the body and both headers are
 * present, the feature is on, the secret matches and the topic is one of the
 * configured ones; every other request gets 404 and nothing is sent.
 */
module MqGate {
  import opened Wrappers
  import opened JavaStrings
  import opened Api

  /** `HEADER_SECRET_KEY.toLowerCase()` and `HEADER_REQUEST_TOPIC_KEY.toLowerCase()`. */
  const SecretHeader := "pf-ff-mq_controller-secret"
  const TopicHeader := "pf-ff-request_topic"
  const TopicListSeparator := ","

  /** The bus request envelope; the gate stamps its txid and response topic. */
  datatype ApiRequest = ApiRequest(
    txid: Option<Txid>,
    verb: string,
    resourceUri: string,
    dataPayload: map<string, string>,
    responseTopicName: Option<string>)

  /** The configuration values the gate reads. */
  datatype MqConfig = MqConfig(
    enabled: bool,
    secret: string,
    validTopicsAsString: string,
    responseTopicName: string)

  /** The HTTP status returned and the (topic, request) handed to `makeRequest`, if any. */
  datatype GateResult = GateResult(status: int, sent: Option<(string, ApiRequest)>)

  /** The request as the gate leaves it before its second round of checks. */
  function Stamp(request: ApiRequest, txid: Txid, config: MqConfig): ApiRequest {
    request.(txid := Some(txid), responseTopicName := Some(config.responseTopicName))
  }

  /** `Arrays.asList(validTopicsAsString.split(","))`. */
  function ValidTopics(config: MqConfig): seq<string> {
    Split(config.validTopicsAsString, TopicListSeparator)
  }

  /** `validForKafka` stands for `ApiRequest.isValidForKafka`. */
  function Gate(
    txid: Txid,
    headers: map<string, string>,
    body: Option<ApiRequest>,
    config: MqConfig,
    validForKafka: ApiRequest -> bool): (r: GateResult)
    ensures r.status == Ok200 || r.status == NotFound404
    ensures r.status == Ok200 <==> r.sent.Some?
    ensures (body.None? || SecretHeader !in headers || TopicHeader !in headers) ==> r == GateResult(NotFound404, None)
    ensures r.sent.Some? <==>
      && body.Some? && SecretHeader in headers && TopicHeader in headers
      && config.enabled
      && headers[SecretHeader] == config.secret
      && headers[TopicHeader] in ValidTopics(config)
      && validForKafka(Stamp(body.value, txid, config))
    ensures r.sent.Some? ==> r.sent.value == (headers[TopicHeader], Stamp(body.value, txid, config))
  {
    if body.None? || SecretHeader !in headers || TopicHeader !in headers then
      GateResult(NotFound404, None)
    else
      var request := Stamp(body.value, txid, config);
      var secret := headers[SecretHeader];
      var topic := headers[TopicHeader];
      if !config.enabled || secret != config.secret || topic !in ValidTopics(config) || !validForKafka(request) then
        GateResult(NotFound404, None)
      else
        GateResult(Ok200, Some((topic, request)))
  }

  /** An accepted topic never contains a comma: topics are compared whole, never trimmed or re-split. */
  lemma {:induction false} AcceptedTopicHasNoComma(
    txid: Txid, headers: map<string, string>, body: Option<ApiRequest>, config: MqConfig, validForKafka: ApiRequest -> bool)
    requires Gate(txid, headers, body, config, validForKafka).sent.Some?
    ensures !Contains(Gate(txid, headers, body, config, validForKafka).sent.value.0, TopicListSeparator)
  {
    var topic := headers[TopicHeader];
    var topics := ValidTopics(config);
    var i :| 0 <= i < |topics| && topics[i] == topic;
    if Contains(config.validTopicsAsString, TopicListSeparator) {
      var raw := RawSplit(config.validTopicsAsString, TopicListSeparator);
      assert topics == DropTrailingEmpty(raw);
      assert topics[i] == raw[i];
    } else {
      assert topics == [config.validTopicsAsString];
    }
  }

  /** With an empty topic list, Java's split yields one empty topic, so an empty topic header passes that check. */
  lemma EmptyTopicListAdmitsEmptyTopic(config: MqConfig)
    requires config.validTopicsAsString == ""
    ensures ValidTopics(config) == [""]
  {
    assert !OccursAt("", TopicListSeparator, 0);
  }
}
