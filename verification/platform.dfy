/**
 What the extension obtains from code outside this model: the parsers of
 the Kubernetes client library and of the Java runtime, the Guacamole
 property file and the process environment, and the ways a connection
 attempt can fail.
 */
module Platform {
  import opened Outcome

  /**
   Library parsers whose code is not part of this model, passed in as
   functions. Each answers None where the library throws.
   - `quantity`: the numeric value of `new Quantity(text)` (`getNumber()`);
   - `parseInt`: `Integer.parseInt(text)`;
   - `parseBool`: the parser of a boolean Guacamole property.
   */
  datatype Library = Library(
    quantity: string -> Option<real>,
    parseInt: string -> Option<int>,
    parseBool: string -> Option<bool>)

  /**
   `properties`: the values `guacamole.properties` defines, by property name;
   `environment`: the process environment variables, by name.
   */
  datatype Settings = Settings(properties: map<string, string>, environment: map<string, string>)

  /** Why a connection attempt failed. */
  datatype Failure =
      // Validation errors raised as GuacamoleServerException (K8sVNCConnection.java 182-202).
    | InvalidNamespace(namespace: string)
    | InvalidCpu(cpu: string)
    | InvalidMemory(memory: string)
    | InvalidPvcSize(size: string)
    | MissingPassword
    | MissingImage
      // A boolean property whose text the property parser rejects.
    | PropertyRejected(property: string)
      // The VNC port never accepted a connection (line 253).
    | PortTimeout(podName: string)
      // The socket address refused a port outside 0..65535 (line 244); not an I/O error, so the port wait does not catch it.
    | PortOutOfRange(number: int)
      // `Integer.parseInt` rejected the port text.
    | InvalidPort(port: string)
      // `new Quantity(text)` rejected the text.
    | QuantityRejected(text: string)
      // The Kubernetes API answered with this HTTP status code.
    | ApiFailure(code: int)
      // The pod never reported an IP while running (line 487).
    | IpTimeout
      // A null reference was dereferenced.
    | NullDereference

  /** Failures raised as Guacamole exceptions, which `connect` rethrows unchanged; all others it wraps. */
  predicate IsGuacamoleError(f: Failure) {
    f.InvalidNamespace? || f.InvalidCpu? || f.InvalidMemory? || f.InvalidPvcSize? ||
    f.MissingPassword? || f.MissingImage? || f.PropertyRejected? || f.PortTimeout?
  }

}
