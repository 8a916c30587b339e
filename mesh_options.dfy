/**
 * The options a `Mesh` is initialized with (`Mesh.initialize`): the two required
 * fields and the defaults of the optional ones.
 */
module MeshOptions {
  import opened Wrappers

  /** The only file format of `Mesh.Format`. */
  const JSON := "json"

  /**
   * The options object. A field the caller left undefined, or a call
   * without any options object, gives `None`. The target
   * element is modelled by its selector string.
   */
  datatype Options = Options(
    element: Option<string>,
    mesh: Option<string>,
    format: Option<string>,
    animated: Option<bool>,
    center: Option<bool>,
    pixelScale: Option<bool>)

  /** The configuration a constructed mesh keeps; it never changes afterwards. */
  datatype Config = Config(
    element: string,
    mesh: string,
    format: string,
    animated: bool,
    center: bool,
    pixelScale: bool)

  /** The configuration errors raised by the construction asserts. */
  datatype ConfigError = ElementUndefined | MeshUndefined

  /** JavaScript truthiness of an optional string: present and not empty. */
  predicate Truthy(s: Option<string>) {
    s.Some? && s.value != ""
  }

  /**
   * Construction: `element` is asserted first and `mesh` second; a falsy format
   * falls back to JSON, and each omitted flag defaults to true.
   */
  function Configure(o: Options): (r: Result<Config, ConfigError>)
    ensures r.Success? <==> Truthy(o.element) && Truthy(o.mesh)
    ensures !Truthy(o.element) ==> r == Failure(ElementUndefined)
    ensures Truthy(o.element) && !Truthy(o.mesh) ==> r == Failure(MeshUndefined)
    ensures r.Success? ==> r.value.element == o.element.value && r.value.mesh == o.mesh.value
    ensures r.Success? ==> r.value.format == (if Truthy(o.format) then o.format.value else JSON)
    ensures r.Success? ==> (r.value.animated <==> o.animated != Some(false))
    ensures r.Success? ==> (r.value.center <==> o.center != Some(false))
    ensures r.Success? ==> (r.value.pixelScale <==> o.pixelScale != Some(false))
  {
    if !Truthy(o.element) then Failure(ElementUndefined)
    else if !Truthy(o.mesh) then Failure(MeshUndefined)
    else
      Success(Config(
        o.element.value,
        o.mesh.value,
        if Truthy(o.format) then o.format.value else JSON,
        o.animated.GetOr(true),
        o.center.GetOr(true),
        o.pixelScale.GetOr(true)))
  }
}
