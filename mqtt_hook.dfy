/** The telemetry hook `useMqtt`: frame repair, the device liveness classifier, and the
    hook's state as it is changed by the transport's callbacks, the liveness interval,
    the scheduled reconnects and the effect's cleanup. */
module MqttHook {
  import opened Wrappers
  import opened Text

  const MQTT_BROKER_WEBSOCKET: string := "wss://broker.emqx.io:8084/mqtt"
  const UNIQUE_TOPIC_PREFIX_WEB: string := "hidroflow/hf123"
  /** Milliseconds without a message after which the device counts as offline. */
  const ESP_OFFLINE_TIMEOUT: int := 40000
  /** Milliseconds between a connection failure or loss and the next attempt. */
  const RECONNECT_DELAY: int := 5000
  const CLIENT_ID_PREFIX: string := "hidroflow_web_"

  /** `topicSub` of a hook called with `topicId`: the one topic it subscribes to and
      accepts frames from. It is built from the fixed prefix alone; the per-device form
      that used `topicId` is commented out in `useMqtt`. */
  function TopicSub(topicId: string): (topic: string)
    ensures topic == "hidroflow/hf123/data"
  {
    UNIQUE_TOPIC_PREFIX_WEB + "/data"
  }

  /** Hooks called with any two `topicId`s listen on the same topic. */
  lemma FixedTopic(topicId: string, otherTopicId: string)
    ensures TopicSub(topicId) == TopicSub(otherTopicId) == "hidroflow/hf123/data"
  {
  }

  /** Connection status shown to the user. */
  datatype MqttStatus = Conectando | Conectado | Desconectado | Erro

  /** The label of each status, as the hook's `MqttStatus` type spells it; each label
      names exactly one status. */
  function MqttStatusText(s: MqttStatus): (t: string)
    ensures t == "Conectando..." <==> s == Conectando
    ensures t == "Conectado" <==> s == Conectado
    ensures t == "Desconectado" <==> s == Desconectado
    ensures t == "Erro" <==> s == Erro
  {
    match s
    case Conectando => "Conectando..."
    case Conectado => "Conectado"
    case Desconectado => "Desconectado"
    case Erro => "Erro"
  }

  /** Device liveness shown to the user. */
  datatype EspStatus = Online | Offline | AguardandoDados

  /** The label of each liveness status, as the hook's `EspStatus` type spells it; each
      label names exactly one status. */
  function EspStatusText(s: EspStatus): (t: string)
    ensures t == "Online" <==> s == Online
    ensures t == "Offline" <==> s == Offline
    ensures t == "Aguardando Dados..." <==> s == AguardandoDados
  {
    match s
    case Online => "Online"
    case Offline => "Offline"
    case AguardandoDados => "Aguardando Dados..."
  }

  // ---------------------------------------------------------------------------
  // Frame repair

  /** `formatStringToJson`: closes a frame whose trailing `}` was dropped. The repair only
      ever appends, appends at most one character, and leaves a frame that already ends
      in `}` as it is. */
  function FormatStringToJson(message: string): (r: string)
    ensures EndsWith(r, '}')
    ensures |message| <= |r| <= |message| + 1
    ensures r[..|message|] == message
    ensures EndsWith(message, '}') <==> r == message
  {
    if !EndsWith(message, '}') then message + "}" else message
  }

  /** Repairing twice is repairing once. */
  lemma FormatIdempotent(message: string)
    ensures FormatStringToJson(FormatStringToJson(message)) == FormatStringToJson(message)
  {
  }

  /** The empty frame is repaired to a lone closing brace. */
  lemma FormatEmpty()
    ensures FormatStringToJson("") == "}"
  {
  }

  /** A frame that lost its final `}` is restored exactly, provided the character before
      that brace was not itself a `}`; this holds for the flat four-field telemetry record,
      whose last field value ends in a digit or a quote. */
  lemma FormatRepairsTruncation(frame: string)
    requires EndsWith(frame, '}')
    requires !EndsWith(frame[..|frame| - 1], '}')
    ensures FormatStringToJson(frame[..|frame| - 1]) == frame
  {
    assert frame[..|frame| - 1] + "}" == frame;
  }

  /** When a frame that lost its final `}` happens to end in `}` anyway (a nested object as
      last value), the repair does nothing and the frame stays truncated. */
  lemma FormatDoesNotRepairNested(frame: string)
    requires EndsWith(frame, '}') && EndsWith(frame[..|frame| - 1], '}')
    ensures FormatStringToJson(frame[..|frame| - 1]) == frame[..|frame| - 1] != frame
  {
  }

  /** One such frame: an object whose last value is an empty object. */
  lemma FormatDoesNotRepairNestedExample()
    ensures FormatStringToJson("{\"a\":{}") == "{\"a\":{}"
  {
  }

  // ---------------------------------------------------------------------------
  // Liveness classifier

  /** The classification done by `checkEspStatus`: no timestamp (absent, or 0, which the
      falsy test in `checkEspStatus` treats alike) means "waiting for data"; otherwise the device is
      offline exactly when MORE than the timeout has passed since the last frame. */
  function ClassifyEsp(lastMessageTimestamp: Option<int>, now: int): (s: EspStatus)
    ensures s == AguardandoDados <==> lastMessageTimestamp.None? || lastMessageTimestamp.value == 0
    ensures s == Offline <==> lastMessageTimestamp.Some? && lastMessageTimestamp.value != 0 &&
                              now - lastMessageTimestamp.value > ESP_OFFLINE_TIMEOUT
    ensures s == Online <==> lastMessageTimestamp.Some? && lastMessageTimestamp.value != 0 &&
                             now - lastMessageTimestamp.value <= ESP_OFFLINE_TIMEOUT
  {
    if lastMessageTimestamp.None? || lastMessageTimestamp.value == 0 then AguardandoDados
    else if now - lastMessageTimestamp.value > ESP_OFFLINE_TIMEOUT then Offline
    else Online
  }

  /** The window boundary: exactly 40000 ms of silence is still online, one more is offline. */
  lemma LivenessBoundary(lastSeen: int)
    requires lastSeen != 0
    ensures ClassifyEsp(Some(lastSeen), lastSeen + 40000) == Online
    ensures ClassifyEsp(Some(lastSeen), lastSeen + 40001) == Offline
  {
  }

  /** Without new frames, an offline device stays offline as time passes, and an online one
      was online at every earlier moment since its last frame. */
  lemma LivenessMonotone(lastMessageTimestamp: Option<int>, now: int, later: int)
    requires now <= later
    ensures ClassifyEsp(lastMessageTimestamp, now) == Offline ==> ClassifyEsp(lastMessageTimestamp, later) == Offline
    ensures ClassifyEsp(lastMessageTimestamp, later) == Online ==> ClassifyEsp(lastMessageTimestamp, now) == Online
  {
  }

  // ---------------------------------------------------------------------------
  // The hook's state

  /** One `Paho.Client` as far as the hook sees it: its id, whether the transport reports
      it connected, and the topics subscribed through it. */
  datatype Client = Client(broker: string, clientId: string, connected: bool, subscriptions: seq<string>)

  /** The state of one `useMqtt` instance. `Json` is whatever `JSON.parse` yields:
      `onMessageArrived` casts it to `MqttData` without checking a field. */
  class Hook<Json> {
    /** The hook's argument; the topic does not depend on it. */
    const topicId: string
    const topicSub: string
    /** `JSON.parse`: `None` where it throws. */
    const parse: string -> Option<Json>
    var mqttStatus: MqttStatus
    var espStatus: EspStatus
    var lastData: Option<Json>
    var lastMessageTimestamp: Option<int>
    /** Every client `connectMqtt` has built, oldest first; `clientRef.current` is the
        last one. Older clients stay reachable through their callbacks. */
    var clients: seq<Client>
    /** Whether the liveness interval is running. */
    var espStatusTimer: bool
    /** Due times of the scheduled `setTimeout(connectMqtt, 5000)` calls not yet fired. */
    var pendingRetries: multiset<int>

    /** Data and timestamp are set together, and until a frame has been accepted the
        liveness status is "waiting for data", whatever the connection does. */
    ghost predicate Valid()
      reads this
    {
      && (lastData.Some? <==> lastMessageTimestamp.Some?)
      && (lastMessageTimestamp.None? ==> espStatus == AguardandoDados)
    }

    /** `clientRef.current`: the client built last, none before the first. */
    function ClientRef(): (r: Option<Client>)
      reads this
      ensures r.None? <==> clients == []
      ensures r.Some? ==> r.value == clients[|clients| - 1]
    {
      if clients == [] then None else Some(clients[|clients| - 1])
    }

    /** The first render: the hook's initial state, before its effect runs. */
    constructor (topicId: string, parse: string -> Option<Json>)
      ensures Valid()
      ensures this.topicId == topicId && topicSub == TopicSub(topicId) && this.parse == parse
      ensures MqttStatusText(mqttStatus) == "Desconectado"
      ensures EspStatusText(espStatus) == "Aguardando Dados..."
      ensures lastData == None && lastMessageTimestamp == None
      ensures clients == [] && !espStatusTimer && pendingRetries == multiset{}
    {
      this.topicId := topicId;
      topicSub := TopicSub(topicId);
      this.parse := parse;
      mqttStatus := Desconectado;
      espStatus := AguardandoDados;
      lastData := None;
      lastMessageTimestamp := None;
      clients := [];
      espStatusTimer := false;
      pendingRetries := multiset{};
    }

    /** `connectMqtt`: shows "connecting" and builds a fresh client, which becomes
        `clientRef.current`. `randomHex` stands for `Math.random().toString(16).substr(2, 8)`. */
    method ConnectMqtt(randomHex: string)
      requires Valid()
      modifies this
      ensures Valid()
      ensures MqttStatusText(mqttStatus) == "Conectando..."
      ensures clients == old(clients) + [Client(MQTT_BROKER_WEBSOCKET, CLIENT_ID_PREFIX + randomHex, false, [])]
      ensures ClientRef() == Some(Client(MQTT_BROKER_WEBSOCKET, CLIENT_ID_PREFIX + randomHex, false, []))
      ensures espStatus == old(espStatus) && lastData == old(lastData)
      ensures lastMessageTimestamp == old(lastMessageTimestamp)
      ensures espStatusTimer == old(espStatusTimer) && pendingRetries == old(pendingRetries)
    {
      mqttStatus := Conectando;
      clients := clients + [Client(MQTT_BROKER_WEBSOCKET, CLIENT_ID_PREFIX + randomHex, false, [])];
    }

    /** The effect body: connect, then start the liveness interval. */
    method Mount(randomHex: string)
      requires Valid()
      modifies this
      ensures Valid()
      ensures MqttStatusText(mqttStatus) == "Conectando..." && espStatusTimer
      ensures clients == old(clients) + [Client(MQTT_BROKER_WEBSOCKET, CLIENT_ID_PREFIX + randomHex, false, [])]
      ensures espStatus == old(espStatus) && lastData == old(lastData)
      ensures lastMessageTimestamp == old(lastMessageTimestamp)
      ensures pendingRetries == old(pendingRetries)
    {
      ConnectMqtt(randomHex);
      espStatusTimer := true;
    }

    /** `onSuccess` of client `k`: shows "connected" and subscribes that client to the
        fixed topic. */
    method OnSuccess(k: nat)
      requires Valid()
      requires k < |clients|
      modifies this
      ensures Valid()
      ensures MqttStatusText(mqttStatus) == "Conectado"
      ensures clients == old(clients)[k := old(clients)[k].(connected := true,
                                            subscriptions := old(clients)[k].subscriptions + [topicSub])]
      ensures espStatus == old(espStatus) && lastData == old(lastData)
      ensures lastMessageTimestamp == old(lastMessageTimestamp)
      ensures espStatusTimer == old(espStatusTimer) && pendingRetries == old(pendingRetries)
    {
      mqttStatus := Conectado;
      clients := clients[k := clients[k].(connected := true, subscriptions := clients[k].subscriptions + [topicSub])];
    }

    /** `onFailure`: shows "error" and schedules exactly one reconnect 5000 ms later. */
    method OnFailure(now: int)
      requires Valid()
      modifies this
      ensures Valid()
      ensures MqttStatusText(mqttStatus) == "Erro"
      ensures pendingRetries == old(pendingRetries) + multiset{now + RECONNECT_DELAY}
      ensures clients == old(clients)
      ensures espStatus == old(espStatus) && lastData == old(lastData)
      ensures lastMessageTimestamp == old(lastMessageTimestamp) && espStatusTimer == old(espStatusTimer)
    {
      mqttStatus := Erro;
      pendingRetries := pendingRetries + multiset{now + RECONNECT_DELAY};
    }

    /** `onConnectionLost` of client `k`, which the transport has marked disconnected. A
        nonzero code shows "disconnected" and schedules exactly one reconnect 5000 ms later;
        code 0 (a requested disconnect) leaves the hook's state as it was. */
    method OnConnectionLost(k: nat, errorCode: int, now: int)
      requires Valid()
      requires k < |clients|
      modifies this
      ensures Valid()
      ensures clients == old(clients)[k := old(clients)[k].(connected := false)]
      ensures errorCode != 0 ==> MqttStatusText(mqttStatus) == "Desconectado" &&
                                 pendingRetries == old(pendingRetries) + multiset{now + RECONNECT_DELAY}
      ensures errorCode == 0 ==> mqttStatus == old(mqttStatus) && pendingRetries == old(pendingRetries)
      ensures espStatus == old(espStatus) && lastData == old(lastData)
      ensures lastMessageTimestamp == old(lastMessageTimestamp) && espStatusTimer == old(espStatusTimer)
    {
      clients := clients[k := clients[k].(connected := false)];
      if errorCode != 0 {
        mqttStatus := Desconectado;
        pendingRetries := pendingRetries + multiset{now + RECONNECT_DELAY};
      }
    }

    /** `onMessageArrived`: a frame on the fixed topic is repaired and parsed; when it
        parses, the parsed value replaces the last data wholesale and the timestamp becomes
        `now`. Another topic, or a parse failure (the exception is caught and logged), leaves
        everything unchanged. */
    method OnMessageArrived(topic: string, payload: string, now: int)
      requires Valid()
      modifies this
      ensures Valid()
      ensures topic == topicSub && parse(FormatStringToJson(payload)).Some? ==>
                lastData == parse(FormatStringToJson(payload)) && lastMessageTimestamp == Some(now)
      ensures topic != topicSub || parse(FormatStringToJson(payload)).None? ==>
                lastData == old(lastData) && lastMessageTimestamp == old(lastMessageTimestamp)
      ensures mqttStatus == old(mqttStatus) && espStatus == old(espStatus) && clients == old(clients)
      ensures espStatusTimer == old(espStatusTimer) && pendingRetries == old(pendingRetries)
    {
      if topic == topicSub {
        var formattedPayload := FormatStringToJson(payload);
        var data := parse(formattedPayload);
        if data.Some? {
          lastData := data;
          lastMessageTimestamp := Some(now);
        }
      }
    }

    /** One tick of the liveness interval, if it is running: `checkEspStatus` at `now`. */
    method Tick(now: int)
      requires Valid()
      modifies this
      ensures Valid()
      ensures espStatus == if old(espStatusTimer) then ClassifyEsp(lastMessageTimestamp, now) else old(espStatus)
      ensures mqttStatus == old(mqttStatus) && lastData == old(lastData) && clients == old(clients)
      ensures lastMessageTimestamp == old(lastMessageTimestamp)
      ensures espStatusTimer == old(espStatusTimer) && pendingRetries == old(pendingRetries)
    {
      if espStatusTimer {
        espStatus := ClassifyEsp(lastMessageTimestamp, now);
      }
    }

    /** A scheduled reconnect fires at `now`, no earlier than it was due, and runs
        `connectMqtt` again. */
    method FireRetry(due: int, now: int, randomHex: string)
      requires Valid()
      requires due in pendingRetries && due <= now
      modifies this
      ensures Valid()
      ensures pendingRetries == old(pendingRetries) - multiset{due}
      ensures MqttStatusText(mqttStatus) == "Conectando..."
      ensures clients == old(clients) + [Client(MQTT_BROKER_WEBSOCKET, CLIENT_ID_PREFIX + randomHex, false, [])]
      ensures espStatus == old(espStatus) && lastData == old(lastData)
      ensures lastMessageTimestamp == old(lastMessageTimestamp) && espStatusTimer == old(espStatusTimer)
    {
      pendingRetries := pendingRetries - multiset{due};
      ConnectMqtt(randomHex);
    }

    /** The effect's cleanup: stops the liveness interval and disconnects the current
        client if it is connected. Older clients and scheduled reconnects are left alone. */
    method Cleanup()
      requires Valid()
      modifies this
      ensures Valid()
      ensures !espStatusTimer
      ensures old(ClientRef()).Some? && old(ClientRef()).value.connected ==>
                clients == old(clients)[|old(clients)| - 1 := old(ClientRef()).value.(connected := false)]
      ensures old(ClientRef()).None? || !old(ClientRef()).value.connected ==> clients == old(clients)
      ensures pendingRetries == old(pendingRetries)
      ensures mqttStatus == old(mqttStatus) && espStatus == old(espStatus)
      ensures lastData == old(lastData) && lastMessageTimestamp == old(lastMessageTimestamp)
    {
      espStatusTimer := false;
      if clients != [] && clients[|clients| - 1].connected {
        clients := clients[|clients| - 1 := clients[|clients| - 1].(connected := false)];
      }
    }
  }

  /** A session as `useMqtt` runs it: connect, receive a frame without its closing brace,
      and see the device online at the next tick. */
  method OnlineAfterFirstFrame<Json>(parse: string -> Option<Json>, record: Json, t: int)
    requires t > 0
    requires parse("{\"water_level\":500,\"humidity\":2000,\"humidity_state\":\"Dry\",\"pump_state\":\"Inactive\"}") == Some(record)
  {
    var hook := new Hook<Json>("hf123", parse);
    hook.Mount("0a1b2c3d");
    assert hook.espStatus == AguardandoDados;
    hook.OnSuccess(0);
    assert hook.mqttStatus == Conectado && hook.clients[0].subscriptions == [TopicSub("hf123")];
    var truncated := "{\"water_level\":500,\"humidity\":2000,\"humidity_state\":\"Dry\",\"pump_state\":\"Inactive\"";
    assert FormatStringToJson(truncated) == truncated + "}";
    assert truncated + "}" == "{\"water_level\":500,\"humidity\":2000,\"humidity_state\":\"Dry\",\"pump_state\":\"Inactive\"}";
    hook.OnMessageArrived(TopicSub("hf123"), truncated, t);
    assert hook.lastData == Some(record);
    hook.Tick(t + 5000);
    assert hook.espStatus == Online;
  }

  /** Cleanup does not cancel a scheduled reconnect: when it fires, a new client is built
      after the hook was cleaned up. */
  method ReconnectAfterCleanup<Json>(t: int)
  {
    var hook := new Hook<Json>("hf123", (frame: string) => None);
    hook.Mount("00000001");
    hook.OnSuccess(0);
    hook.OnConnectionLost(0, 7, t);
    assert hook.mqttStatus == Desconectado && hook.pendingRetries == multiset{t + 5000};
    hook.Cleanup();
    assert !hook.espStatusTimer && t + 5000 in hook.pendingRetries;
    hook.FireRetry(t + 5000, t + 5000, "00000002");
    assert |hook.clients| == 2 && hook.mqttStatus == Conectando;
  }
}
