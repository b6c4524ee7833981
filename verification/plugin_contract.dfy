/** The contract every capability plugin implements (the abstract
    `PluginBase`): a name, a description, the function declarations it
    advertises to the function-calling interface, and optional widget
    information for the front end. `execute_function` is modelled per plugin,
    as a routing function from a function name to the plugin's handlers. */
module PluginContract {
  import opened Wrappers
  import opened OrderedMap

  /** The JSON-schema type tag of a declared parameter. */
  datatype ParamType = StringType | IntegerType | NumberType | BooleanType | ArrayOf(items: ParamType)

  datatype Param = Param(name: string, kind: ParamType, description: string)

  /** One entry of `get_functions()`: name, description, the `properties`
      of the `"type": "object"` parameter schema, and its `required` list. */
  datatype FunctionDecl = FunctionDecl(
    name: string,
    description: string,
    properties: seq<Param>,
    required: seq<string>)

  /** A value of a widget-information dictionary. */
  datatype WidgetValue = Text(text: string) | TextList(items: seq<string>)

  type WidgetInfo = OMap<string, WidgetValue>

  /** A live plugin instance, seen through the `PluginBase` contract. */
  datatype Plugin = Plugin(
    name: string,
    description: string,
    functions: seq<FunctionDecl>,
    widget: Option<WidgetInfo>)

  /** Python truthiness of `get_widget_info()`: `None` and `{}` are false. */
  predicate WidgetTruthy(w: Option<WidgetInfo>) {
    w.Some? && |w.value| > 0
  }

  function FunctionNames(fs: seq<FunctionDecl>): seq<string> {
    seq(|fs|, i requires 0 <= i < |fs| => fs[i].name)
  }

  /** True when the plugin advertises a function called `n`. */
  predicate Declares(p: Plugin, n: string) {
    n in FunctionNames(p.functions)
  }

  /** The error text every plugin's `execute_function` returns for a name it
      does not route. */
  function UnknownFunction(name: string): string {
    "Unknown function: " + name
  }

  /** The widget dictionary shape all four capability plugins return:
      a component name, its stylesheet and the socket events it listens to. */
  function Widget(component: string, events: seq<string>): WidgetInfo {
    [("component_name", Text(component)),
     ("css_file", Text(component + ".css")),
     ("socket_events", TextList(events))]
  }

  function StringParam(name: string, description: string): Param {
    Param(name, StringType, description)
  }

  function IntParam(name: string, description: string): Param {
    Param(name, IntegerType, description)
  }
}
