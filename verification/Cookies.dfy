/** A cookie jar in the shape a profile keeps it and in the shape it travels in. */
module Cookies {
  import opened Wrappers

  /** browser.Cookie. No expiry is a session cookie. */
  datatype Cookie = Cookie(name: string, value: string, domain: string, path: string, expires: Option<real>,
                           secure: bool, httpOnly: bool, sameSite: string)

  /** The browser service's own message. */
  datatype Message = Message(name: string, value: string, domain: string, path: string, expires: Option<real>,
                             secure: bool, httpOnly: bool, sameSite: string)

  type Jar = seq<Cookie>

  /** The same cookies, one by one and in order. */
  ghost predicate Same(jar: Jar, messages: seq<Message>) {
    |jar| == |messages| && forall i :: 0 <= i < |jar| ==> SameCookie(jar[i], messages[i])
  }

  predicate SameCookie(cookie: Cookie, message: Message) {
    && cookie.name == message.name && cookie.value == message.value
    && cookie.domain == message.domain && cookie.path == message.path
    && cookie.expires == message.expires && cookie.secure == message.secure
    && cookie.httpOnly == message.httpOnly && cookie.sameSite == message.sameSite
  }

  method ServiceCookies(jar: Jar) returns (messages: seq<Message>)
    ensures Same(jar, messages)
  {
    messages := [];
    for k := 0 to |jar|
      invariant Same(jar[..k], messages)
    {
      var cookie := jar[k];
      messages := messages + [Message(cookie.name, cookie.value, cookie.domain, cookie.path, cookie.expires,
                                      cookie.secure, cookie.httpOnly, cookie.sameSite)];
    }
    assert jar[..|jar|] == jar;
  }

  method DomainCookies(messages: seq<Message>) returns (jar: Jar)
    ensures Same(jar, messages)
  {
    jar := [];
    for k := 0 to |messages|
      invariant Same(jar, messages[..k])
    {
      var message := messages[k];
      jar := jar + [Cookie(message.name, message.value, message.domain, message.path, message.expires,
                           message.secure, message.httpOnly, message.sameSite)];
    }
    assert messages[..|messages|] == messages;
  }

  /** A jar has one form in messages and a message list one jar, so the two converters
      undo each other. */
  lemma SameIsOneToOne(jar: Jar, messages: seq<Message>, jar': Jar, messages': seq<Message>)
    requires Same(jar, messages) && Same(jar', messages')
    ensures jar == jar' <==> messages == messages'
  {
  }

  method ThereAndBack(jar: Jar) returns (again: Jar)
    ensures again == jar
  {
    var messages := ServiceCookies(jar);
    again := DomainCookies(messages);
    SameIsOneToOne(jar, messages, again, messages);
  }

  method BackAndThere(messages: seq<Message>) returns (again: seq<Message>)
    ensures again == messages
  {
    var jar := DomainCookies(messages);
    again := ServiceCookies(jar);
    SameIsOneToOne(jar, messages, jar, again);
  }
}
