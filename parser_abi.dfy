/**
 * The C interface of the SystemVerilog parser library (oombak_parser.h):
 * signal kinds, error codes, and the instance tree the library hands out.
 */
module ParserAbi {

  /** oombak_parser_signal_type_t */
  datatype SignalType = PackedArrPortIn | PackedArrPortOut | PackedArrVarNet

  /** oombak_parser_error_t */
  datatype ErrorCode =
    | ErrNone
    | FileNotFound
    | TopModuleNotFound
    | CompileError
    | UnsupportedSymbolType
    | UnsupportedPortDirection

  /** oombak_parser_signal_t */
  datatype Signal = Signal(name: string, signalType: SignalType, width: nat)

  /**
   * oombak_parser_instance_t once built: every string and array pointer is
   * set. The parent pointer of a node is the node whose `children` holds it,
   * and the root has none.
   */
  datatype Instance = Instance(
    name: string,
    moduleName: string,
    children: seq<Instance>,
    signals: seq<Signal>)

  predicate IsPort(s: Signal) {
    s.signalType == PackedArrPortIn || s.signalType == PackedArrPortOut
  }
}
