/** The message and name of `ResourceNotFoundError`. */
module ResourceNotFound {
  import opened Wrappers

  datatype ResourceNotFoundError = ResourceNotFoundError(message: string, name: string)

  const NOT_FOUND_SUFFIX: string := " not found"
  const DEFAULT_MESSAGE: string := "Resource not found"
  const ERROR_NAME: string := "NotFoundError"

  /**
   * `new ResourceNotFoundError(resource)`: a truthy resource (given and
   * non-empty) is named in the message; an undefined or empty one gives the
   * default message. The name is always "NotFoundError".
   */
  function NewResourceNotFoundError(resource: Option<string>): (e: ResourceNotFoundError)
    ensures e.name == ERROR_NAME
    ensures |e.message| >= |NOT_FOUND_SUFFIX| && e.message[|e.message| - |NOT_FOUND_SUFFIX|..] == NOT_FOUND_SUFFIX
    ensures resource.Some? && resource.value != "" ==>
      |e.message| == |resource.value| + |NOT_FOUND_SUFFIX| && e.message[..|resource.value|] == resource.value
  {
    var message := if resource.Some? && resource.value != "" then resource.value + NOT_FOUND_SUFFIX else DEFAULT_MESSAGE;
    ResourceNotFoundError(message, ERROR_NAME)
  }

  /** Undefined and the empty string both give the default message. */
  lemma FalsyResourceIsDefault(resource: Option<string>)
    requires resource.None? || resource.value == ""
    ensures NewResourceNotFoundError(resource).message == DEFAULT_MESSAGE
  {
  }

  /** The message takes the resource back: it is the message without its suffix. */
  lemma MessageNamesResource(resource: string)
    requires resource != ""
    ensures var m := NewResourceNotFoundError(Some(resource)).message;
            m[..|m| - |NOT_FOUND_SUFFIX|] == resource
  {
    var m := NewResourceNotFoundError(Some(resource)).message;
    assert m == resource + NOT_FOUND_SUFFIX;
    assert m[..|resource|] == resource;
  }

  /** Two non-empty resources give the same message only when they are the same. */
  lemma MessagesOfResources(a: string, b: string)
    requires a != "" && b != ""
    ensures NewResourceNotFoundError(Some(a)).message == NewResourceNotFoundError(Some(b)).message <==> a == b
  {
    MessageNamesResource(a);
    MessageNamesResource(b);
  }

  /** The resource "Resource" gives the default message all the same. */
  lemma ResourceIsDefault()
    ensures NewResourceNotFoundError(Some("Resource")) == NewResourceNotFoundError(None)
  {
    assert "Resource" + NOT_FOUND_SUFFIX == DEFAULT_MESSAGE;
  }
}
