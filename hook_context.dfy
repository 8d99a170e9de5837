/** The hook context of one service call, with the parts the session hooks use. */
module HookContext {
  import opened JsValues
  import opened Filters

  class Context {
    const operation: string              // context.method
    const id: JsValue                    // context.id
    const path: string                   // context.path
    const query: Option<Doc>             // context.params.query
    const service: Option<ServiceOptions> // context.service.options
    var sessionId: Option<string>        // context.params.sessionId
    var data: Doc                        // context.data

    constructor (operation: string, id: JsValue, path: string, query: Option<Doc>,
                 service: Option<ServiceOptions>, sessionId: Option<string>, data: Doc)
      ensures this.operation == operation && this.id == id && this.path == path
      ensures this.query == query && this.service == service
      ensures this.sessionId == sessionId && this.data == data
    {
      this.operation := operation;
      this.id := id;
      this.path := path;
      this.query := query;
      this.service := service;
      this.sessionId := sessionId;
      this.data := data;
    }
  }
}
