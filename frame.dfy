/**
  The namespace-open frame that client.go writes right after connecting to a
  namespace: the engine.io message kind `4`, the socket.io packet type
  `protocol.MessageTypeOpen` in decimal (`%d`), then the namespace.
*/
module OpenFrame {
  import opened Wrappers
  import opened Strconv

  /**
    `protocol.MessageTypeOpen`.  It is one package constant, used by both the
    dial and the redial; its value is defined outside client.go, so it is
    left unspecified here and every lemma holds whatever it is.
  */
  const MessageTypeOpen: int

  function OpenNamespaceFrame(namespace: string): (frame: string)
    ensures |frame| == 1 + |IntToDecimal(MessageTypeOpen)| + |namespace|
    ensures frame[0] == '4'
    ensures frame[|frame| - |namespace|..] == namespace
  {
    var frame := "4" + IntToDecimal(MessageTypeOpen) + namespace;
    assert frame[|frame| - |namespace|..] == namespace;
    frame
  }

  /** The namespace a frame opens, when it is an open frame. */
  function OpenedNamespace(frame: string): (r: Option<string>)
    ensures r.Some? ==> |r.value| < |frame| && r.value == frame[|frame| - |r.value|..]
  {
    var head := "4" + IntToDecimal(MessageTypeOpen);
    if |head| <= |frame| && frame[..|head|] == head then Some(frame[|head|..]) else None
  }

  /** The namespace is read back from the frame built for it. */
  lemma OpenedNamespaceOfFrame(namespace: string)
    ensures OpenedNamespace(OpenNamespaceFrame(namespace)) == Some(namespace)
  {
  }

  /** A frame from which a namespace is read is the one built for that namespace. */
  lemma FrameOfOpenedNamespace(frame: string, namespace: string)
    requires OpenedNamespace(frame) == Some(namespace)
    ensures OpenNamespaceFrame(namespace) == frame
  {
  }

  /** Different namespaces never produce the same open frame. */
  lemma OpenNamespaceFrameInjective(a: string, b: string)
    requires OpenNamespaceFrame(a) == OpenNamespaceFrame(b)
    ensures a == b
  {
  }
}
