/**
 * Broker vocabulary shared by the notification service: the three topic names, the chat
 * message that travels through the broadcast queue, and the events handed to the Kafka
 * producer.  Timestamps and JSON encoding are not modelled: a log event is reduced to its
 * key and its "message" text.
 */
module Events {

  const EmailTopic: string := "email"
  const LogsTopic: string := "logs"
  const MessageTopic: string := "message"

  /** The chat message decoded from a websocket frame or built from a push request. */
  datatype Message = Message(sender: string, recipients: seq<string>, message: string)

  /** What a producer call carries besides its topic and key. */
  datatype Payload =
    | LogNote(text: string)      // a logs-topic event, reduced to its "message" field
    | Chat(msg: Message)         // a message-topic event

  /** One call of the producer: every attempt is recorded, whether or not Kafka accepted it. */
  datatype Event = Event(topic: string, key: string, payload: Payload)

  /** A logs-topic event with the given key and "message" text. */
  function LogEvent(key: string, text: string): Event
  {
    Event(LogsTopic, key, LogNote(text))
  }
}
