/** NewServiceStatus of provider/interface.go: dropping and cutting the health report. */
module ServiceStatuses {
  import opened Common
  import opened Utf8

  const HEALTH_MESSAGE_MAX_LEN := 500

  class Health {
    var status: string
    var message: seq<Byte>

    constructor (status: string, message: seq<Byte>)
      ensures this.status == status && this.message == message
    {
      this.status, this.message := status, message;
    }
  }

  datatype ServiceStatus<Plan, Config, Details> = ServiceStatus(
    plan: Plan,
    config: Config,
    details: Details,
    pause: Option<bool>,
    error: Option<seq<Byte>>,
    health: Option<Health>)

  /** The message as it is reported. */
  function Cut(message: seq<Byte>): seq<Byte> {
    var runes := Runes(message);
    if |runes| > HEALTH_MESSAGE_MAX_LEN then Bytes(runes[..HEALTH_MESSAGE_MAX_LEN]) else message
  }

  method NewServiceStatus<Plan, Config, Details>(
      plan: Plan, config: Config, details: Details,
      pause: Option<bool>, err: Option<seq<Byte>>, health: Health?)
    returns (status: ServiceStatus<Plan, Config, Details>)
    ensures (status.plan, status.config, status.details) == (plan, config, details)
    ensures (status.pause, status.error) == (pause, err)
    ensures status.health.None? <==> health == null || pause == Some(true)
    ensures status.health.Some? ==>
              && health != null && fresh(status.health.value)
              && status.health.value.status == health.status
              && status.health.value.message == Cut(health.message)
    ensures health != null ==> unchanged(health)
  {
    status := ServiceStatus(plan, config, details, pause, err, None);
    if health != null && (pause.None? || !pause.value) {
      var h := new Health(health.status, health.message);
      var msg := Runes(h.message);
      if |msg| > HEALTH_MESSAGE_MAX_LEN {
        h.message := Bytes(msg[..HEALTH_MESSAGE_MAX_LEN]);
      }
      status := status.(health := Some(h));
    }
  }

  /** For every message, valid or not: the report has as many characters as the message,
      at most 500, the same ones, and cutting it again changes nothing. */
  lemma CutKeepsCharacters(message: seq<Byte>)
    ensures Runes(Cut(message)) == if |Runes(message)| > 500 then Runes(message)[..500] else Runes(message)
    ensures Cut(Cut(message)) == Cut(message)
  {
    var runes := Runes(message);
    if |runes| > HEALTH_MESSAGE_MAX_LEN {
      RunesOfBytes(runes[..HEALTH_MESSAGE_MAX_LEN]);
    }
  }

  /** The report is a byte prefix of the message exactly if the message is short enough or
      its first 500 characters are well-formed; so it is for every valid message, and then
      it ends between two characters. */
  lemma CutIsPrefix(message: seq<Byte>)
    ensures Cut(message) <= message <==>
            |Runes(message)| <= 500 || BeginsWell(message, 500)
    ensures Valid(message) ==> Cut(message) <= message && Valid(Cut(message))
  {
    var runes := Runes(message);
    if |runes| > HEALTH_MESSAGE_MAX_LEN {
      CutIsPrefixIff(message, HEALTH_MESSAGE_MAX_LEN);
      RunesOfBytes(runes[..HEALTH_MESSAGE_MAX_LEN]);
      if Valid(message) {
        ValidBeginsWell(message, HEALTH_MESSAGE_MAX_LEN);
      }
    }
  }
}
